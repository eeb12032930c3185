/** How big the array part should be: counting integer keys by slices, and the best power of two (ltable.cc). */
module TableSizes {
  import opened TableHash
  import opened Numbers

  const MAXBITS := 26

  lemma {:induction false} Pow2Grows(i: nat, j: nat)
    requires i <= j
    ensures Pow2(i) <= Pow2(j) && (i < j ==> 2 * Pow2(i) <= Pow2(j))
  {
    if i < j {
      Pow2Grows(i, j - 1);
    }
  }

  lemma {:induction false} EveryPower(p: nat) returns (i: nat)
    requires PowerOfTwo(p)
    ensures p == Pow2(i)
  {
    if p == 1 {
      i := 0;
    } else {
      var j := EveryPower(p / 2);
      i := j + 1;
    }
  }

  lemma Pow2Max()
    ensures Pow2(MAXBITS) == MAXASIZE
  {
    assert Pow2(4) == 0x10;
    assert Pow2(8) == 0x100;
    assert Pow2(12) == 0x1000;
    assert Pow2(16) == 0x1_0000;
    assert Pow2(20) == 0x10_0000;
    assert Pow2(24) == 0x100_0000;
  }

  /** The slice an integer key falls into: the least `i` with `k <= 2^i`. */
  function CeilLog2(k: nat): (i: nat)
    requires k > 0
  {
    if k == 1 then 0 else 1 + CeilLog2((k + 1) / 2)
  }

  lemma {:induction false} CeilLog2Is(k: nat)
    requires k > 0
    ensures k <= Pow2(CeilLog2(k)) && (k > 1 ==> CeilLog2(k) > 0 && 2 * k > Pow2(CeilLog2(k)))
  {
    if k > 1 {
      var half := (k + 1) / 2;
      CeilLog2Is(half);
      assert k <= 2 * half <= k + 1;
      assert Pow2(CeilLog2(k)) == 2 * Pow2(CeilLog2(half));
    }
  }

  /** `k` is in slice `i` exactly if it is above the power before and not above the power. */
  lemma SliceOf(k: nat, i: nat)
    requires k > 0
    ensures CeilLog2(k) <= i <==> k <= Pow2(i)
  {
    CeilLog2Is(k);
    var j := CeilLog2(k);
    if j <= i {
      Pow2Grows(j, i);
    } else {
      Pow2Grows(i, j);
    }
  }

  ghost function Slice(ints: set<nat>, i: nat): set<nat> {
    set k | k in ints && k > 0 && CeilLog2(k) == i
  }

  ghost function Below(ints: set<nat>, n: nat): set<nat> {
    set k | k in ints && k <= n
  }

  ghost predicate Counted(nums: seq<nat>, ints: set<nat>) {
    && |nums| == MAXBITS + 1
    && (forall k :: k in ints ==> 0 < k <= MAXASIZE)
    && (forall i :: 0 <= i <= MAXBITS ==> nums[i] == |Slice(ints, i)|)
  }

  /** More than half of the slots of an array part of this size would be in use. */
  ghost predicate Dense(ints: set<nat>, p: nat) { 2 * |Below(ints, p)| > p }

  /** The largest power of two that is dense, or 0 if none is. */
  ghost predicate Optimal(ints: set<nat>, n: nat) {
    && (n == 0 || (PowerOfTwo(n) && Dense(ints, n)))
    && (forall p: nat :: PowerOfTwo(p) && Dense(ints, p) ==> p <= n)
  }

  lemma BelowSlice(ints: set<nat>, i: nat)
    requires forall k :: k in ints ==> k > 0
    ensures i == 0 ==> Below(ints, Pow2(0)) == Slice(ints, 0)
    ensures i > 0 ==> |Below(ints, Pow2(i))| == |Below(ints, Pow2(i - 1))| + |Slice(ints, i)|
  {
    forall k: nat | k > 0 ensures CeilLog2(k) <= i <==> k <= Pow2(i) {
      SliceOf(k, i);
    }
    if i > 0 {
      forall k: nat | k > 0 ensures CeilLog2(k) <= i - 1 <==> k <= Pow2(i - 1) {
        SliceOf(k, i - 1);
      }
      assert Below(ints, Pow2(i)) == Below(ints, Pow2(i - 1)) + Slice(ints, i);
      assert Below(ints, Pow2(i - 1)) !! Slice(ints, i);
    }
  }

  lemma {:induction false} RangeSize(s: set<nat>, n: nat)
    requires forall k :: k in s ==> 0 < k <= n
    ensures |s| <= n
    decreases n
  {
    if n > 0 {
      RangeSize(s - {n}, n - 1);
    } else {
      assert s == {};
    }
  }

  lemma BelowSize(ints: set<nat>, n: nat)
    requires forall k :: k in ints ==> k > 0
    ensures |Below(ints, n)| <= n && |Below(ints, n)| <= |ints|
  {
    RangeSize(Below(ints, n), n);
    SubsetSize(Below(ints, n), ints);
  }

  /** Slices below `i` are counted in `a`, and `n` is the best power below 2^i. */
  ghost predicate Progress(ints: set<nat>, i: nat, a: nat, n: nat, na: nat) {
    && a == (if i == 0 then 0 else |Below(ints, Pow2(i - 1))|)
    && (n == 0 || (PowerOfTwo(n) && Dense(ints, n))) && n <= MAXASIZE && na == |Below(ints, n)|
    && (forall j :: 0 <= j < i && Dense(ints, Pow2(j)) ==> Pow2(j) <= n)
  }

  lemma DenseTest(ints: set<nat>, i: nat)
    ensures Dense(ints, Pow2(i)) <==> |Below(ints, Pow2(i))| > Pow2(i) / 2
  {
    hide Below;
    assert i > 0 ==> Pow2(i) % 2 == 0;
  }

  lemma BelowNext(ints: set<nat>, i: nat, a: nat)
    requires forall k :: k in ints ==> k > 0
    requires a == if i == 0 then 0 else |Below(ints, Pow2(i - 1))|
    ensures |Below(ints, Pow2(i))| == a + |Slice(ints, i)|
    ensures |Slice(ints, i)| == 0 ==> !Dense(ints, Pow2(i))
  {
    hide Slice, Below;
    BelowSlice(ints, i);
    SparseSlice(ints, i);
    DenseTest(ints, i);
  }

  lemma ProgressNext(ints: set<nat>, i: nat, a: nat, n: nat, na: nat, c: nat)
    requires (forall k :: k in ints ==> k > 0) && Progress(ints, i, a, n, na) && i <= MAXBITS && c == |Slice(ints, i)|
    ensures var better := c > 0 && a + c > Pow2(i) / 2;
            Progress(ints, i + 1, a + c, if better then Pow2(i) else n, if better then a + c else na)
  {
    hide Slice, Below, Dense, PowerOfTwo;
    BelowNext(ints, i, a);
    DenseTest(ints, i);
    Pow2Grows(i, MAXBITS);
    Pow2Max();
    forall j | 0 <= j < i ensures Pow2(j) <= Pow2(i) {
      Pow2Grows(j, i);
    }
  }

  /** The counts of the slices determine the best size: the largest power of two more than half full. */
  method ComputeSizes(nums: array<nat>, narray: nat, ghost ints: set<nat>) returns (n: nat, na: nat)
    requires nums.Length == MAXBITS + 1 && Counted(nums[..], ints) && narray == |ints|
    ensures Optimal(ints, n) && n <= MAXASIZE && na == |Below(ints, n)|
  {
    hide Progress, Optimal, Slice, Below, PowerOfTwo;
    var a: nat, i: nat, twotoi: nat := 0, 0, 1;
    n, na := 0, 0;
    RangeSize(ints, MAXASIZE);
    ProgressStart(ints);
    while twotoi / 2 < narray
      invariant twotoi == Pow2(i) && Progress(ints, i, a, n, na)
      invariant i > 0 ==> a <= narray
      decreases 2 * narray - twotoi
    {
      InRange(i, narray);
      ghost var c := nums[..][i];
      ProgressNext(ints, i, a, n, na, c);
      if nums[i] > 0 {
        a := a + nums[i];
        if a > twotoi / 2 {
          n := twotoi;
          na := a;
        }
      }
      i, twotoi := i + 1, twotoi * 2;
      Bounded(ints, i, a, n, na);
      if a == narray {
        break;
      }
    }
    Best(ints, i, a, n, na);
  }

  lemma ProgressStart(ints: set<nat>)
    requires forall k :: k in ints ==> k > 0
    ensures Progress(ints, 0, 0, 0, 0)
  {
    NoneBelow(ints);
  }

  lemma Bounded(ints: set<nat>, i: nat, a: nat, n: nat, na: nat)
    requires (forall k :: k in ints ==> k > 0) && Progress(ints, i, a, n, na)
    ensures a <= |ints| && n <= MAXASIZE && na == |Below(ints, n)|
  {
    if i > 0 {
      BelowSize(ints, Pow2(i - 1));
    }
  }

  lemma NoneBelow(ints: set<nat>)
    requires forall k :: k in ints ==> k > 0
    ensures |Below(ints, 0)| == 0
  {
    assert Below(ints, 0) == {};
  }

  lemma InRange(i: nat, narray: nat)
    requires Pow2(i) / 2 < narray <= MAXASIZE
    ensures i <= MAXBITS
  {
    Pow2Max();
    if i > MAXBITS {
      Pow2Grows(MAXBITS, i);
    }
  }

  /** An empty slice cannot make its power dense. */
  lemma SparseSlice(ints: set<nat>, i: nat)
    requires forall k :: k in ints ==> k > 0
    ensures i > 0 && |Slice(ints, i)| == 0 ==> !Dense(ints, Pow2(i))
    ensures i == 0 ==> |Slice(ints, 0)| == |Below(ints, 1)|
  {
    BelowSlice(ints, i);
    if i > 0 {
      BelowSize(ints, Pow2(i - 1));
    }
  }

  /** After the last slice looked at, no power is dense any more. */
  lemma Best(ints: set<nat>, i: nat, a: nat, n: nat, na: nat)
    requires (forall k :: k in ints ==> k > 0) && Progress(ints, i, a, n, na)
    requires Pow2(i) / 2 >= |ints| || (i > 0 && a == |ints|)
    ensures Optimal(ints, n) && n <= MAXASIZE && na == |Below(ints, n)|
  {
    forall p: nat | PowerOfTwo(p) && Dense(ints, p) ensures p <= n {
      var j := EveryPower(p);
      BelowSize(ints, p);
      if j >= i {
        Pow2Grows(i, j);
        if i > 0 {
          BelowSize(ints, Pow2(i - 1));
        }
      }
    }
  }

  // ---- counting keys

  /** The integers among some keys that could live in an array part. */
  ghost function Candidates(keys: set<Key>): set<nat> {
    set key | key in keys && InArray(key, MAXASIZE) :: key.k as nat
  }

  /** The indices up to `n` of an array part that have a value. */
  ghost function ArrayInts(arr: seq<Value>, n: nat): (ints: set<nat>)
    ensures forall k :: k in ints ==> 0 < k <= n
  {
    if n == 0 then {}
    else if n <= |arr| && arr[n - 1] != NoValue then ArrayInts(arr, n - 1) + {n}
    else ArrayInts(arr, n - 1)
  }

  lemma {:induction false} ArrayIntsPrefix(arr: seq<Value>, m: nat, n: nat)
    requires m <= n
    ensures ArrayInts(arr, m) <= ArrayInts(arr, n)
    ensures forall k :: k in ArrayInts(arr, n) && k <= m ==> k in ArrayInts(arr, m)
  {
    if m < n {
      ArrayIntsPrefix(arr, m, n - 1);
    }
  }

  /** The keys with a value from slot `i` on. */
  ghost function NodeKeys(nodes: seq<Slot>, i: nat): set<Key>
    decreases |nodes| - i
  {
    if i >= |nodes| then {}
    else if nodes[i].val != NoValue && !nodes[i].sk.Free? then NodeKeys(nodes, i + 1) + {nodes[i].sk.key}
    else NodeKeys(nodes, i + 1)
  }

  predicate InSlice(k: nat, lg: nat) { 0 < k <= MAXASIZE && CeilLog2(k) == lg }

  /** A whole run of indices in one slice is counted. */
  lemma CountedRun(nums: seq<nat>, a: set<nat>, b: set<nat>, lg: nat, c: nat)
    requires Counted(nums, a) && a <= b && |b| == |a| + c && lg <= MAXBITS
    requires forall k: nat :: k in b && k !in a ==> InSlice(k, lg)
    ensures Counted(nums[lg := nums[lg] + c], b)
  {
    assert b == a + (b - a);
    forall i | 0 <= i <= MAXBITS ensures nums[lg := nums[lg] + c][i] == |Slice(b, i)| {
      if i == lg {
        assert Slice(b, i) == Slice(a, i) + (b - a);
      } else {
        assert Slice(b, i) == Slice(a, i);
      }
    }
  }

  lemma SliceBound(k: nat)
    requires 0 < k <= MAXASIZE
    ensures CeilLog2(k) <= MAXBITS
  {
    SliceOf(k, MAXBITS);
    Pow2Max();
  }

  /** One more key is counted, if it could live in an array part. */
  method CountInt(key: Key, nums: array<nat>, ghost ints: set<nat>) returns (c: nat)
    requires nums.Length == MAXBITS + 1 && Counted(nums[..], ints)
    requires InArray(key, MAXASIZE) ==> key.k as nat !in ints
    modifies nums
    ensures c == if InArray(key, MAXASIZE) then 1 else 0
    ensures Counted(nums[..], if InArray(key, MAXASIZE) then ints + {key.k as nat} else ints)
  {
    hide Slice;
    if key.Num? && 0 < key.k <= MAXASIZE {
      var k: nat := key.k;
      SliceBound(k);
      var lg := CeilLog2(k);
      ghost var s := nums[..];
      CountedRun(s, ints, ints + {k}, lg, 1);
      nums[lg] := nums[lg] + 1;
      assert nums[..] == s[lg := s[lg] + 1];
      return 1;
    }
    return 0;
  }

  lemma {:induction false} OutCount(keys: set<Key>, n: nat)
    requires n <= MAXASIZE
    ensures |Out(keys, n)| + |Below(Candidates(keys), n)| == |keys|
    decreases |keys|
  {
    if keys == {} {
      assert Out(keys, n) == {} && Below(Candidates(keys), n) == {};
    } else {
      var x :| x in keys;
      var rest := keys - {x};
      OutCount(rest, n);
      if InArray(x, n) {
        assert Out(keys, n) == Out(rest, n);
        assert Below(Candidates(keys), n) == Below(Candidates(rest), n) + {x.k as nat};
      } else {
        assert Out(keys, n) == Out(rest, n) + {x};
        assert Below(Candidates(keys), n) == Below(Candidates(rest), n);
      }
    }
  }

  /** An index above a power of two and not above the next is in the slice between them. */
  lemma IndexSlice(k: nat, lg: nat)
    requires k > 0 && k <= Pow2(lg) && (lg > 0 ==> k > Pow2(lg - 1))
    ensures CeilLog2(k) == lg
  {
    SliceOf(k, lg);
    if lg > 0 {
      SliceOf(k, lg - 1);
    }
  }

  lemma ArrayIntsZero(arr: seq<Value>)
    ensures ArrayInts(arr, 0) == {}
  {
  }

  lemma ArrayIntsStep(arr: seq<Value>, i: nat)
    requires 0 < i <= |arr|
    ensures |ArrayInts(arr, i)| == |ArrayInts(arr, i - 1)| + (if arr[i - 1] != NoValue then 1 else 0)
  {
  }

  /** Counts the values at indices from `i0` up to `lim`. */
  method CountRun(arr: array<Value>, i0: nat, lim: nat) returns (i: nat, lc: nat)
    requires 0 < i0 && lim <= arr.Length
    ensures i == if i0 <= lim then lim + 1 else i0
    ensures |ArrayInts(arr[..], i - 1)| == |ArrayInts(arr[..], i0 - 1)| + lc
  {
    hide ArrayInts;
    i, lc := i0, 0;
    while i <= lim
      invariant i0 <= i && (i <= lim + 1 || i == i0)
      invariant |ArrayInts(arr[..], i - 1)| == |ArrayInts(arr[..], i0 - 1)| + lc
    {
      ArrayIntsStep(arr[..], i);
      if arr[i - 1] != NoValue {
        lc := lc + 1;
      }
      i := i + 1;
    }
  }

  method AddTo(nums: array<nat>, lg: nat, c: nat)
    requires lg < nums.Length
    modifies nums
    ensures nums[..] == old(nums[..])[lg := old(nums[lg]) + c]
  {
    nums[lg] := nums[lg] + c;
  }

  /** Counts the values of the array part, slice by slice. */
  method NumUseArray(arr: array<Value>, sizearray: nat, nums: array<nat>) returns (ause: nat)
    requires sizearray == arr.Length <= MAXASIZE && nums.Length == MAXBITS + 1 && Counted(nums[..], {})
    modifies nums
    ensures Counted(nums[..], ArrayInts(arr[..], sizearray)) && ause == |ArrayInts(arr[..], sizearray)|
  {
    hide Counted, Slice, ArrayInts;
    ghost var s := arr[..];
    ause := 0;
    assert ArrayInts(s, 0) == {} by { ArrayIntsZero(s); }
    var i: nat, lg: nat, ttlg: nat := 1, 0, 1;
    Pow2Max();
    while lg <= MAXBITS
      invariant lg <= MAXBITS + 1 && ttlg == Pow2(lg) && i > 0
      invariant i - 1 == if lg == 0 then 0 else if Pow2(lg - 1) < sizearray then Pow2(lg - 1) else sizearray
      invariant Counted(nums[..], ArrayInts(s, i - 1)) && ause == |ArrayInts(s, i - 1)|
    {
      var lc: nat, lim: nat := 0, ttlg;
      if lim > sizearray {
        lim := sizearray;
        if i > lim {
          break;
        }
      }
      ghost var from := i;
      i, lc := CountRun(arr, i, lim);
      RunInSlice(s, from, i, lg);
      ghost var was := nums[..];
      CountedRun(was, ArrayInts(s, from - 1), ArrayInts(s, i - 1), lg, lc);
      AddTo(nums, lg, lc);
      assert nums[..] == was[lg := was[lg] + lc];
      ause := ause + lc;
      lg, ttlg := lg + 1, ttlg * 2;
    }
  }

  lemma KeyInSlice(k: nat, from: nat, i: nat, lg: nat)
    requires 0 < from <= k < i && i - 1 <= Pow2(lg) && (lg > 0 ==> from - 1 >= Pow2(lg - 1)) && lg <= MAXBITS
    ensures InSlice(k, lg)
  {
    hide CeilLog2;
    Pow2Max();
    Pow2Grows(lg, MAXBITS);
    IndexSlice(k, lg);
  }

  lemma RunInSlice(arr: seq<Value>, from: nat, i: nat, lg: nat)
    requires 0 < from <= i && i - 1 <= Pow2(lg) && (lg > 0 ==> from - 1 >= Pow2(lg - 1) || from == i) && lg <= MAXBITS
    ensures ArrayInts(arr, from - 1) <= ArrayInts(arr, i - 1)
    ensures forall k: nat :: k in ArrayInts(arr, i - 1) && k !in ArrayInts(arr, from - 1) ==> InSlice(k, lg)
  {
    var all, before := ArrayInts(arr, i - 1), ArrayInts(arr, from - 1);
    ArrayIntsPrefix(arr, from - 1, i - 1);
    forall k: nat | k in all && k !in before ensures InSlice(k, lg) {
      KeyInSlice(k, from, i, lg);
    }
  }

  // ---- the keys of the node vector

  ghost predicate OnlyLive(nodes: seq<Slot>) {
    forall i :: 0 <= i < |nodes| && nodes[i].val != NoValue ==> nodes[i].sk.Live?
  }

  lemma {:induction false} NodeKeysAt(nodes: seq<Slot>, slots: map<Key, nat>, i: nat)
    requires Placed(nodes, slots) && OnlyLive(nodes)
    ensures forall k :: k in NodeKeys(nodes, i) <==>
              k in slots && slots[k] >= i && slots[k] < |nodes| && nodes[slots[k]].val != NoValue
    decreases |nodes| - i
  {
    if i < |nodes| {
      NodeKeysAt(nodes, slots, i + 1);
    }
  }

  lemma NodeKeysStep(nodes: seq<Slot>, slots: map<Key, nat>, i: nat)
    requires Placed(nodes, slots) && OnlyLive(nodes) && i < |nodes|
    ensures NodeKeys(nodes, i) == if nodes[i].val != NoValue then NodeKeys(nodes, i + 1) + {nodes[i].sk.key}
                                  else NodeKeys(nodes, i + 1)
    ensures nodes[i].val != NoValue ==>
              nodes[i].sk.Live? && nodes[i].sk.key in slots && nodes[i].sk.key !in NodeKeys(nodes, i + 1)
  {
    NodeKeysAt(nodes, slots, i + 1);
  }

  lemma CandidatesAdd(keys: set<Key>, key: Key)
    requires key !in keys
    ensures Candidates(keys + {key}) == if InArray(key, MAXASIZE) then Candidates(keys) + {key.k as nat}
                                        else Candidates(keys)
    ensures InArray(key, MAXASIZE) ==> key.k as nat !in Candidates(keys)
  {
    assert forall k :: k in Candidates(keys) ==> Num(k) in keys;
  }

  /** Counts the keys of the node vector that have a value, and those of them that could live in an array part. */
  method NumUseHash(node: array<Slot>, nums: array<nat>, ghost slots: map<Key, nat>, ghost ints: set<nat>)
    returns (totaluse: nat, ause: nat)
    requires Placed(node[..], slots) && OnlyLive(node[..])
    requires nums.Length == MAXBITS + 1 && Counted(nums[..], ints)
    requires forall k :: k in slots && InArray(k, MAXASIZE) ==> k.k as nat !in ints
    modifies nums
    ensures totaluse == |NodeKeys(node[..], 0)| && ause == |Candidates(NodeKeys(node[..], 0))|
    ensures Counted(nums[..], ints + Candidates(NodeKeys(node[..], 0)))
  {
    hide Counted, Placed, NodeKeys, Candidates;
    ghost var s := node[..];
    totaluse, ause := 0, 0;
    NodesEnd(s);
    assert ints + {} == ints;
    for i := node.Length downto 0
      invariant totaluse == |NodeKeys(s, i)| && ause == |Candidates(NodeKeys(s, i))|
      invariant Counted(nums[..], ints + Candidates(NodeKeys(s, i)))
    {
      NodeKeysStep(s, slots, i);
      if node[i].val != NoValue {
        ghost var seen := ints + Candidates(NodeKeys(s, i + 1));
        CandidatesAdd(NodeKeys(s, i + 1), node[i].sk.key);
        var c := CountInt(node[i].sk.key, nums, seen);
        ause := ause + c;
        totaluse := totaluse + 1;
        assert InArray(s[i].sk.key, MAXASIZE) ==> seen + {s[i].sk.key.k as nat} == ints + Candidates(NodeKeys(s, i));
      }
    }
  }

  lemma NodesEnd(nodes: seq<Slot>)
    ensures NodeKeys(nodes, |nodes|) == {} && Candidates({}) == {}
  {
  }

  /** The keys of a table: the indices of its array part, and the keys of its node vector. */
  lemma KeysSplit(arr: seq<Value>, size: nat, nodes: seq<Slot>, slots: map<Key, nat>, model: map<Key, int>)
    requires Placed(nodes, slots) && OnlyLive(nodes) && Faithful(arr, size, nodes, slots, model)
    ensures |model.Keys| == |ArrayInts(arr, size)| + |NodeKeys(nodes, 0)|
    ensures Candidates(model.Keys) == ArrayInts(arr, size) + Candidates(NodeKeys(nodes, 0))
    ensures |Candidates(model.Keys)| == |ArrayInts(arr, size)| + |Candidates(NodeKeys(nodes, 0))|
  {
    NodeKeysAt(nodes, slots, 0);
    assert NodeKeys(nodes, 0) == Out(model.Keys, size);
    ArrayIntsAre(arr, size, model);
    OutCount(model.Keys, size);
    assert Candidates(model.Keys) == ArrayInts(arr, size) + Candidates(NodeKeys(nodes, 0)) by {
      CandidatesSplit(model.Keys, size);
    }
    assert ArrayInts(arr, size) !! Candidates(NodeKeys(nodes, 0));
  }

  lemma CandidatesSplit(keys: set<Key>, n: nat)
    requires n <= MAXASIZE
    ensures Candidates(keys) == Below(Candidates(keys), n) + Candidates(Out(keys, n))
  {
    forall k | k in Candidates(keys) ensures k in Below(Candidates(keys), n) + Candidates(Out(keys, n)) {
      var key :| key in keys && InArray(key, MAXASIZE) && key.k as nat == k;
      if k > n {
        assert key in Out(keys, n);
      }
    }
    forall k | k in Candidates(Out(keys, n)) ensures k in Candidates(keys) {
      var key :| key in Out(keys, n) && InArray(key, MAXASIZE) && key.k as nat == k;
    }
  }

  lemma ArrayIntsAre(arr: seq<Value>, size: nat, model: map<Key, int>)
    requires size <= |arr| && size <= MAXASIZE && forall i :: 0 <= i < size ==> arr[i] == Lookup(model, Num(i + 1))
    ensures ArrayInts(arr, size) == Below(Candidates(model.Keys), size)
  {
    forall k | 0 < k <= size ensures k in ArrayInts(arr, size) <==> Num(k) in model {
      ArrayIntsPrefix(arr, k, size);
      assert arr[k - 1] == Lookup(model, Num(k));
    }
    forall k | k in Below(Candidates(model.Keys), size) ensures Num(k) in model && 0 < k {
    }
    forall k: nat | 0 < k <= size && Num(k) in model ensures k in Candidates(model.Keys) {
      assert InArray(Num(k), MAXASIZE) && Num(k).k as nat == k;
    }
  }

  lemma LiveOnly(h: Key -> nat, nodes: seq<Slot>, c: seq<int>, r: seq<int>)
    requires Sound(h, nodes, c, r)
    ensures OnlyLive(nodes)
  {
    forall i | 0 <= i < |nodes| && nodes[i].val != NoValue ensures nodes[i].sk.Live? {
      assert RestOk(nodes, i);
    }
  }

  lemma NothingCounted(nums: seq<nat>)
    requires |nums| == MAXBITS + 1 && forall i :: 0 <= i < |nums| ==> nums[i] == 0
    ensures Counted(nums, {})
  {
    assert forall i :: 0 <= i <= MAXBITS ==> Slice({}, i) == {};
  }

  lemma FaithfulSize(arr: seq<Value>, size: nat, nodes: seq<Slot>, slots: map<Key, nat>, model: map<Key, int>)
    requires Faithful(arr, size, nodes, slots, model)
    ensures size <= MAXASIZE
    ensures forall k :: k in slots && InArray(k, MAXASIZE) ==> k.k as nat !in ArrayInts(arr, size)
  {
  }

  lemma NodeSize(size: nat)
    ensures PowerOfTwo(1)
    ensures size > 0 ==> (CeilPower(size) <= MAXASIZE <==> size <= MAXASIZE)
  {
    Pow2Max();
    assert PowerOfTwo(Pow2(MAXBITS));
    if 0 < size <= MAXASIZE {
      PowerBound(CeilPower(size), MAXASIZE);
    }
  }

  lemma KeysInNodes(arr: seq<Value>, size: nat, nodes: seq<Slot>, slots: map<Key, nat>, model: map<Key, int>)
    requires Placed(nodes, slots) && OnlyLive(nodes) && Faithful(arr, size, nodes, slots, model)
    ensures Out(model.Keys, size) == NodeKeys(nodes, 0)
  {
    NodeKeysAt(nodes, slots, 0);
  }

  lemma OutShrinks(keys: set<Key>, m: nat, n: nat)
    requires m <= n
    ensures |Out(keys, n)| <= |Out(keys, m)|
  {
    SubsetSize(Out(keys, n), Out(keys, m));
  }

  lemma {:induction false} NodeKeysSize(nodes: seq<Slot>, i: nat)
    requires i <= |nodes|
    ensures |NodeKeys(nodes, i)| <= |nodes| - i
    decreases |nodes| - i
  {
    if i < |nodes| {
      NodeKeysSize(nodes, i + 1);
    }
  }

  lemma EmptyNodes(nodes: seq<Slot>)
    requires nodes == [EMPTY]
    ensures NodeKeys(nodes, 0) == {}
  {
    assert NodeKeys(nodes, 1) == {};
  }
}
