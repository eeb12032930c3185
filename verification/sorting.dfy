/** Quicksort on a table used as a list, in place, with any comparison (ltablib.cc). */
module Sorting {
  import opened Numbers


  datatype Value = Nil | V(v: int)

  type Less = (Value, Value) -> bool

  /** What the sort asks of a comparison: a strict order whose incomparability is transitive. */
  ghost predicate StrictWeak(lt: Less) {
    && (forall x :: !lt(x, x))
    && (forall x, y :: lt(x, y) ==> !lt(y, x))
    && (forall x, y, z :: !lt(x, y) && !lt(y, z) ==> !lt(x, z))
  }

  /** No later element of the slice is less than an earlier one. */
  ghost predicate Sorted(lt: Less, s: seq<Value>, l: int, u: int)
    requires 0 <= l && u < |s|
  {
    forall k, m :: l <= k < m <= u ==> !lt(s[m], s[k])
  }

  /** The slice is in order, but for pairs inside `[l..u]`. */
  ghost predicate SortedBut(lt: Less, s: seq<Value>, l0: int, u0: int, l: int, u: int)
    requires 0 <= l0 && u0 < |s|
  {
    forall k, m :: l0 <= k < m <= u0 && !(l <= k && m <= u) ==> !lt(s[m], s[k])
  }

  /** The same elements in another order, and only between `lo` and `hi` (inclusive). */
  ghost predicate Permuted(s: seq<Value>, t: seq<Value>, lo: int, hi: int) {
    && |t| == |s| && multiset(t) == multiset(s)
    && (forall k :: 0 <= k < |s| && !(lo <= k <= hi) ==> t[k] == s[k])
  }

  lemma PermutedSelf(s: seq<Value>, lo: int, hi: int)
    ensures Permuted(s, s, lo, hi)
  {
  }

  lemma PermutedTrans(a: seq<Value>, b: seq<Value>, c: seq<Value>, lo: int, hi: int)
    requires Permuted(a, b, lo, hi) && Permuted(b, c, lo, hi)
    ensures Permuted(a, c, lo, hi)
  {
  }

  lemma PermutedWider(s: seq<Value>, t: seq<Value>, lo: int, hi: int, lo': int, hi': int)
    requires Permuted(s, t, lo, hi) && lo' <= lo && hi <= hi'
    ensures Permuted(s, t, lo', hi')
  {
  }

  lemma SwapMultiset(s: seq<Value>, i: nat, j: nat)
    requires i < |s| && j < |s|
    ensures multiset(s[i := s[j]][j := s[i]]) == multiset(s)
  {
  }

  lemma PartsCount(s: seq<Value>, lo: nat, hi: nat, x: Value)
    requires lo <= hi <= |s|
    ensures multiset(s)[x] == multiset(s[..lo])[x] + multiset(s[lo..hi])[x] + multiset(s[hi..])[x]
  {
    assert s == s[..lo] + s[lo..hi] + s[hi..];
  }

  /** Every element of the permuted stretch was in the stretch before. */
  lemma CameFrom(s: seq<Value>, t: seq<Value>, lo: int, hi: int, k: int) returns (k': int)
    requires Permuted(s, t, lo, hi) && 0 <= lo <= k <= hi < |s|
    ensures lo <= k' <= hi && s[k'] == t[k]
  {
    var x := t[k];
    PartsCount(s, lo, hi + 1, x);
    PartsCount(t, lo, hi + 1, x);
    assert s[..lo] == t[..lo] && s[hi + 1..] == t[hi + 1..];
    assert t[lo..hi + 1][k - lo] == x;
    assert x in s[lo..hi + 1];
    k' :| lo <= k' <= hi && s[k'] == x;
  }

  method Swap(a: array<Value>, i: nat, j: nat, ghost lo: int, ghost hi: int)
    requires i < a.Length && j < a.Length && lo <= i <= hi && lo <= j <= hi
    modifies a
    ensures a[..] == old(a[..])[i := old(a[j])][j := old(a[i])]
    ensures Permuted(old(a[..]), a[..], lo, hi)
  {
    ghost var s := a[..];
    SwapMultiset(s, i, j);
    a[i], a[j] := a[j], a[i];
    assert a[..] == s[i := s[j]][j := s[i]];
  }

  /** Puts the first, middle and last element in order. */
  method MedianOfThree(a: array<Value>, lt: Less, l: nat, u: nat) returns (i: nat)
    requires l < u < a.Length
    modifies a
    ensures i == (l + u) / 2 && Permuted(old(a[..]), a[..], l, u)
    ensures StrictWeak(lt) ==> !lt(a[u], a[l])
    ensures StrictWeak(lt) && u - l > 1 ==> !lt(a[i], a[l]) && !lt(a[u], a[i])
  {
    hide StrictWeak, Permuted;
    ghost var s := a[..];
    i := (l + u) / 2;
    PermutedSelf(s, l, u);
    if lt(a[u], a[l]) {
      Swap(a, l, u, l, u);
    }
    ghost var s1 := a[..];
    OrderMiddle(a, lt, l, i, u);
    PermutedTrans(s, s1, a[..], l, u);
    if StrictWeak(lt) {
      MedianOrder(lt, s, s1, a[..], l, i, u);
    }
  }

  method OrderMiddle(a: array<Value>, lt: Less, l: nat, i: nat, u: nat)
    requires l <= i <= u < a.Length
    modifies a
    ensures Permuted(old(a[..]), a[..], l, u)
    ensures var s := old(a[..]);
            a[..] == if u - l <= 1 then s
                     else if lt(s[i], s[l]) then s[i := s[l]][l := s[i]]
                     else if lt(s[u], s[i]) then s[i := s[u]][u := s[i]] else s
  {
    hide Permuted;
    PermutedSelf(a[..], l, u);
    if u - l > 1 {
      if lt(a[i], a[l]) {
        Swap(a, i, l, l, u);
      } else if lt(a[u], a[i]) {
        Swap(a, i, u, l, u);
      }
    }
  }

  lemma MedianOrder(lt: Less, s: seq<Value>, s1: seq<Value>, t: seq<Value>, l: nat, i: nat, u: nat)
    requires StrictWeak(lt) && l < u < |s| && i == (l + u) / 2
    requires s1 == if lt(s[u], s[l]) then s[l := s[u]][u := s[l]] else s
    requires t == if u - l <= 1 then s1
                  else if lt(s1[i], s1[l]) then s1[i := s1[l]][l := s1[i]]
                  else if lt(s1[u], s1[i]) then s1[i := s1[u]][u := s1[i]] else s1
    ensures !lt(t[u], t[l])
    ensures u - l > 1 ==> !lt(t[i], t[l]) && !lt(t[u], t[i])
  {
    var x, y, z := s1[l], s1[i], s1[u];
    assert !lt(z, x);
    if u - l > 1 {
      assert lt(y, x) ==> !lt(x, y);
      assert lt(z, y) ==> !lt(y, z);
    }
  }

  /** Around a pivot: everything up to `i` is not above it and everything from `j` on is not below it. */
  ghost predicate Around(lt: Less, s: seq<Value>, p: Value, l: int, i: int, j: int, u: int)
    requires 0 <= l && u < |s|
  {
    (forall k :: l <= k <= i && k <= u ==> !lt(p, s[k])) && (forall k :: l <= k && j <= k <= u ==> !lt(s[k], p))
  }

  /** The next element from `i0` up that is not less than the pivot; `ok` unless the comparison leads out of the
      slice. */
  method ScanUp(a: array<Value>, lt: Less, p: Value, i0: nat, u: nat) returns (i: nat, ok: bool)
    requires i0 <= u && u + 1 < a.Length
    ensures i0 < i <= u + 1 && forall k :: i0 < k < i ==> lt(a[k], p)
    ensures ok <==> !lt(a[i], p)
    ensures !ok ==> i == u + 1
  {
    i := i0 + 1;
    while lt(a[i], p)
      invariant i0 < i <= u + 1 && forall k :: i0 < k < i ==> lt(a[k], p)
      decreases u + 1 - i
    {
      if i > u {
        return i, false;
      }
      i := i + 1;
    }
    ok := true;
  }

  /** The next element from `j0` down that is not above the pivot. */
  method ScanDown(a: array<Value>, lt: Less, p: Value, j0: nat, l: nat) returns (j: nat, ok: bool)
    requires 0 < l <= j0 < a.Length
    ensures l - 1 <= j < j0 && forall k :: j < k < j0 ==> lt(p, a[k])
    ensures ok <==> !lt(p, a[j])
    ensures !ok ==> j == l - 1
  {
    j := j0 - 1;
    while lt(p, a[j])
      invariant l - 1 <= j < j0 && forall k :: j < k < j0 ==> lt(p, a[k])
      decreases j
    {
      if j < l {
        return j, false;
      }
      j := j - 1;
    }
    ok := true;
  }

  /** Something stops the scan upwards before the end of the slice. */
  lemma StopUp(lt: Less, s: seq<Value>, p: Value, l: nat, i0: nat, j0: nat, u: nat) returns (stop: nat)
    requires l <= i0 <= j0 <= u - 1 && i0 < u - 1 && u < |s| && Around(lt, s, p, l, i0, j0, u)
    ensures i0 < stop <= u - 1 && !lt(s[stop], p)
  {
    stop := if i0 < j0 then j0 else i0 + 1;
  }

  lemma StopDown(lt: Less, s: seq<Value>, p: Value, l: nat, i0: nat, j0: nat, u: nat) returns (stop: nat)
    requires l <= i0 <= j0 <= u - 1 && u < |s| && (i0 == j0 ==> l < i0) && Around(lt, s, p, l, i0, j0, u)
    ensures l <= stop < j0 && !lt(p, s[stop])
  {
    stop := if i0 < j0 then i0 else j0 - 1;
  }

  /** Under a proper comparison the pivot and what has passed it stop both scans inside the slice. */
  lemma ScansStop(lt: Less, s: seq<Value>, p: Value, l: nat, i0: nat, j0: nat, u: nat, i: nat, j: nat)
    requires StrictWeak(lt) && l <= i0 <= j0 <= u - 1 && i0 < u - 1 && u + 1 < |s| && 0 < l && (i0 == j0 ==> l < i0)
    requires Around(lt, s, p, l, i0, j0, u)
    requires i0 < i <= u + 1 && (forall k :: i0 < k < i ==> lt(s[k], p)) && (lt(s[i], p) ==> i == u + 1)
    requires l - 1 <= j < j0 && (forall k :: j < k < j0 ==> lt(p, s[k])) && (lt(p, s[j]) ==> j == l - 1)
    ensures i <= u - 1 && l <= j && !lt(s[i], p) && !lt(p, s[j])
    ensures Around(lt, s, p, l, i - 1, j + 1, u)
  {
    var up := StopUp(lt, s, p, l, i0, j0, u);
    var down := StopDown(lt, s, p, l, i0, j0, u);
    forall k | l <= k <= i - 1 && k <= u ensures !lt(p, s[k]) {
      if k > i0 { assert lt(s[k], p); }
    }
    forall k | l <= k && j + 1 <= k <= u ensures !lt(s[k], p) {
      if k < j0 { assert lt(p, s[k]); }
    }
  }

  lemma SwappedAround(lt: Less, s: seq<Value>, p: Value, l: nat, i: nat, j: nat, u: nat)
    requires l <= i <= j <= u < |s| && Around(lt, s, p, l, i - 1, j + 1, u) && !lt(s[i], p) && !lt(p, s[j])
    ensures Around(lt, s[i := s[j]][j := s[i]], p, l, i, j, u)
  {
  }

  /** The pivot goes between the two parts. */
  lemma PivotAround(lt: Less, s: seq<Value>, p: Value, l: nat, i: nat, j: nat, u: nat)
    requires l < i <= u - 1 && u < |s| && j < i && Around(lt, s, p, l, i - 1, j + 1, u) && s[u - 1] == p && !lt(p, p)
    ensures var t := s[u - 1 := s[i]][i := s[u - 1]]; t[i] == p && Around(lt, t, p, l, i - 1, i + 1, u)
  {
  }

  /** What one round of the two scans leaves: around the pivot, up to where they stand. */
  ghost predicate Round(lt: Less, s: seq<Value>, t: seq<Value>, p: Value, l: nat, i: nat, j: nat, u: nat) {
    && l <= i <= j <= u - 1 && i < u - 1 && u + 1 < |t| && t[u - 1] == p && (i == j ==> l < i)
    && Permuted(s, t, l, u) && (StrictWeak(lt) ==> Around(lt, t, p, l, i, j, u))
  }

  /** One scan from each side; `done` when they have passed each other, otherwise the two elements change places. */
  method ScanRound(a: array<Value>, lt: Less, p: Value, l: nat, u: nat, i0: nat, j0: nat, ghost s: seq<Value>)
    returns (i: nat, j: nat, done: bool, ok: bool)
    requires 0 < l && u + 1 < a.Length && Round(lt, s, a[..], p, l, i0, j0, u)
    modifies a
    ensures l < i <= u + 1
    ensures StrictWeak(lt) ==> ok
    ensures !ok || done ==> Permuted(s, a[..], l, u)
    ensures ok && !done ==> i0 < i && Round(lt, s, a[..], p, l, i, j, u)
    ensures ok && done ==>
              a[u - 1] == p && (StrictWeak(lt) ==> i <= u - 1 && j < i && Around(lt, a[..], p, l, i - 1, j + 1, u))
  {
    hide StrictWeak, Permuted, Around;
    ghost var t := a[..];
    if StrictWeak(lt) {
      var _ := StopUp(lt, t, p, l, i0, j0, u);
    }
    j, done := j0, false;
    i, ok := ScanUp(a, lt, p, i0, u);
    if !ok {
      return;
    }
    j, ok := ScanDown(a, lt, p, j0, l);
    if StrictWeak(lt) {
      ScansStop(lt, t, p, l, i0, j0, u, i, j);
    }
    if !ok {
      return;
    }
    done := j < i;
    if !done {
      if StrictWeak(lt) {
        SwappedAround(lt, t, p, l, i, j, u);
      }
      Swap(a, i, j, l, u);
      PermutedTrans(s, t, a[..], l, u);
    }
  }

  /** Moves elements around the pivot at `u - 1` until the indices meet, and puts the pivot between. */
  method Partition(a: array<Value>, lt: Less, l: nat, u: nat) returns (i: nat, ok: bool)
    requires 0 < l && l + 2 < u && u + 1 < a.Length
    requires StrictWeak(lt) ==> !lt(a[u - 1], a[l]) && !lt(a[u], a[u - 1])
    modifies a
    ensures Permuted(old(a[..]), a[..], l, u + 1)
    ensures l <= i <= u + 1 && (ok ==> l < i)
    ensures StrictWeak(lt) ==>
              ok && i <= u - 1 && Permuted(old(a[..]), a[..], l, u) && Around(lt, a[..], a[i], l, i - 1, i + 1, u)
  {
    hide StrictWeak, Permuted, Around;
    ghost var s := a[..];
    var p := a[u - 1];
    i, ok := l, true;
    var j: nat, done := u - 1, false;
    PermutedSelf(s, l, u);
    PivotStart(lt, s, l, u);
    while !done
      invariant !done ==> ok && Round(lt, s, a[..], p, l, i, j, u)
      invariant done ==> ok && l < i <= u + 1 && a[u - 1] == p && Permuted(s, a[..], l, u)
      invariant done && StrictWeak(lt) ==> i <= u - 1 && j < i && Around(lt, a[..], p, l, i - 1, j + 1, u)
      decreases if done then 0 else 1, u - i
    {
      i, j, done, ok := ScanRound(a, lt, p, l, u, i, j, s);
      if !ok {
        PermutedWider(s, a[..], l, u, l, u + 1);
        return;
      }
    }
    ghost var t := a[..];
    PlacePivot(a, lt, l, u, i, j, s, p);
  }

  method PlacePivot(a: array<Value>, lt: Less, l: nat, u: nat, i: nat, ghost j: nat, ghost s: seq<Value>,
          ghost p: Value)
    requires 0 < l && l + 2 < u && u + 1 < a.Length && l < i <= u + 1 && a[u - 1] == p && Permuted(s, a[..], l, u)
    requires StrictWeak(lt) ==> i <= u - 1 && j < i && Around(lt, a[..], p, l, i - 1, j + 1, u) && !lt(p, p)
    modifies a
    ensures Permuted(s, a[..], l, u + 1)
    ensures StrictWeak(lt) ==> Permuted(s, a[..], l, u) && Around(lt, a[..], a[i], l, i - 1, i + 1, u)
  {
    hide StrictWeak, Permuted, Around;
    ghost var t := a[..];
    PermutedWider(s, t, l, u, l, u + 1);
    ghost var hi := if StrictWeak(lt) then u else u + 1;
    PermutedWider(s, t, l, u, l, hi);
    if StrictWeak(lt) {
      PivotAround(lt, t, p, l, i, j, u);
    }
    Swap(a, u - 1, i, l, hi);
    PermutedTrans(s, t, a[..], l, hi);
    PermutedWider(s, a[..], l, hi, l, u + 1);
  }

  lemma PivotStart(lt: Less, s: seq<Value>, l: nat, u: nat)
    requires l + 2 < u < |s| && (StrictWeak(lt) ==> !lt(s[u - 1], s[l]) && !lt(s[u], s[u - 1]))
    ensures StrictWeak(lt) ==> Around(lt, s, s[u - 1], l, l, u - 1, u) && !lt(s[u - 1], s[u - 1])
  {
  }

  // ---- the whole sort

  lemma StillBut(lt: Less, s: seq<Value>, t: seq<Value>, l0: nat, u0: nat, l: nat, u: nat)
    requires Permuted(s, t, l, u) && l0 <= l && u <= u0 < |s| && SortedBut(lt, s, l0, u0, l, u)
    ensures SortedBut(lt, t, l0, u0, l, u)
  {
    forall k, m | l0 <= k < m <= u0 && !(l <= k && m <= u) ensures !lt(t[m], t[k]) {
      var k', m' := k, m;
      if l <= k <= u { k' := CameFrom(s, t, l, u, k); }
      if l <= m <= u { m' := CameFrom(s, t, l, u, m); }
      assert !lt(s[m'], s[k']);
    }
  }

  /** Sorting a stretch inside one of the two parts keeps the parts around the pivot. */
  lemma StillAround(lt: Less, s: seq<Value>, t: seq<Value>, p: Value, l: nat, i: nat, u: nat, lo: nat, hi: int)
    requires l < i < u < |s| && Around(lt, s, p, l, i - 1, i + 1, u) && Permuted(s, t, lo, hi) && s[i] == p
    requires (l == lo && hi == i - 1) || (lo == i + 1 && hi == u)
    ensures Around(lt, t, p, l, i - 1, i + 1, u) && t[i] == p
  {
    forall k | l <= k <= i - 1 && k <= u ensures !lt(p, t[k]) {
      if lo <= k <= hi { var k' := CameFrom(s, t, lo, hi, k); }
    }
    forall k | l <= k && i + 1 <= k <= u ensures !lt(t[k], p) {
      if lo <= k <= hi { var k' := CameFrom(s, t, lo, hi, k); }
    }
  }

  /** With one part sorted, only pairs inside the other part can be out of order. */
  lemma Narrowed(lt: Less, t: seq<Value>, l0: nat, u0: nat, l: nat, u: nat, i: nat, lo: nat, hi: int, l': nat, u': int)
    requires StrictWeak(lt) && l0 <= l < i < u <= u0 < |t| && SortedBut(lt, t, l0, u0, l, u)
    requires Around(lt, t, t[i], l, i - 1, i + 1, u) && hi < |t| && Sorted(lt, t, lo, hi)
    requires (lo == l && hi == i - 1 && l' == i + 1 && u' == u) || (lo == i + 1 && hi == u && l' == l && u' == i - 1)
    ensures SortedBut(lt, t, l0, u0, l', u')
  {
    forall k, m | l0 <= k < m <= u0 && !(l' <= k && m <= u') ensures !lt(t[m], t[k]) {
      if l <= k && m <= u {
        if k <= i - 1 && m >= i + 1 {
          assert !lt(t[i], t[k]) && !lt(t[m], t[i]);
        }
      }
    }
  }

  lemma StartBut(lt: Less, s: seq<Value>, l0: nat, u0: nat)
    requires u0 < |s|
    ensures SortedBut(lt, s, l0, u0, l0, u0)
  {
  }

  lemma AllSorted(lt: Less, s: seq<Value>, l0: nat, u0: nat, l: nat, u: int)
    requires u0 < |s| && l >= u && SortedBut(lt, s, l0, u0, l, u)
    ensures Sorted(lt, s, l0, u0)
  {
  }

  /** Two or three elements that the median has put in order. */
  lemma SmallSorted(lt: Less, s: seq<Value>, l0: nat, u0: nat, l: nat, u: nat)
    requires StrictWeak(lt) && l0 <= l < u <= u0 < |s| && u - l <= 2 && SortedBut(lt, s, l0, u0, l, u)
    requires !lt(s[u], s[l]) && (u - l > 1 ==> !lt(s[(l + u) / 2], s[l]) && !lt(s[u], s[(l + u) / 2]))
    ensures Sorted(lt, s, l0, u0)
  {
    forall k, m | l0 <= k < m <= u0 ensures !lt(s[m], s[k]) {
      if l <= k && m <= u {
        assert u - l > 1 ==> (l + u) / 2 == l + 1;
      }
    }
  }

  lemma WiderTrans(a: seq<Value>, b: seq<Value>, c: seq<Value>, l: int, u: int, l0: int, u0: int)
    requires Permuted(a, b, l0, u0) && Permuted(b, c, l, u) && l0 <= l && u <= u0
    ensures Permuted(a, c, l0, u0)
  {
  }

  lemma DepthStep(d: nat, small: int, whole: int)
    requires d > 0 ==> Pow2(d) <= small
    requires whole > 1 && 2 * small <= whole
    ensures Pow2(d + 1) <= whole
  {
    assert d == 0 ==> Pow2(d + 1) == 2;
  }

  /** Orders first, middle and last, and puts the middle one, the pivot, next to the last; short slices are done. */
  method PlaceEnds(a: array<Value>, lt: Less, l: nat, u: nat, ghost s: seq<Value>, ghost l0: nat, ghost u0: nat)
    returns (done: bool)
    requires StrictWeak(lt) && l0 <= l < u <= u0 < a.Length
    requires Permuted(s, a[..], l0, u0) && SortedBut(lt, a[..], l0, u0, l, u)
    modifies a
    ensures done == (u - l <= 2) && Permuted(s, a[..], l0, u0)
    ensures done ==> Sorted(lt, a[..], l0, u0)
    ensures !done ==> SortedBut(lt, a[..], l0, u0, l, u) && !lt(a[u - 1], a[l]) && !lt(a[u], a[u - 1])
  {
    hide StrictWeak, Permuted, Sorted, SortedBut;
    ghost var t := a[..];
    var i := MedianOfThree(a, lt, l, u);
    WiderTrans(s, t, a[..], l, u, l0, u0);
    StillBut(lt, t, a[..], l0, u0, l, u);
    done := u - l <= 2;
    if done {
      SmallSorted(lt, a[..], l0, u0, l, u);
      return;
    }
    ghost var t1 := a[..];
    Swap(a, i, u - 1, l, u);
    WiderTrans(s, t1, a[..], l, u, l0, u0);
    StillBut(lt, t1, a[..], l0, u0, l, u);
  }

  /** Sorts `a[l0..u0]` under a proper comparison, without an error. The recursion is on the smaller part, so it is no
      deeper than the logarithm of the length. */
  method AuxSort(a: array<Value>, lt: Less, l0: nat, u0: nat) returns (ok: bool, ghost depth: nat)
    requires StrictWeak(lt) && 0 < l0 <= u0 + 1 && u0 + 1 < a.Length
    modifies a
    ensures ok && Permuted(old(a[..]), a[..], l0, u0) && Sorted(lt, a[..], l0, u0)
    ensures depth > 0 ==> Pow2(depth) <= u0 - l0 + 1
    decreases u0 + 1 - l0, 1
  {
    hide StrictWeak, Permuted, Sorted, SortedBut, Around, Pow2;
    ghost var s := a[..];
    var l: nat, u: int := l0, u0;
    ok, depth := true, 0;
    PermutedSelf(s, l0, u0);
    StartBut(lt, s, l0, u0);
    while l < u
      invariant l0 <= l && u <= u0 && l <= u + 1
      invariant Permuted(s, a[..], l0, u0) && SortedBut(lt, a[..], l0, u0, l, u) && ok
      invariant depth > 0 ==> Pow2(depth) <= u0 - l0 + 1
      decreases u - l
    {
      var done := PlaceEnds(a, lt, l, u, s, l0, u0);
      if done {
        return;
      }
      ghost var d;
      l, u, ok, d := Divide(a, lt, l, u, s, l0, u0);
      if d > depth {
        depth := d;
      }
    }
    AllSorted(lt, a[..], l0, u0, l, u);
  }

  /** Partitions the slice, sorts the smaller part and leaves the larger one. */
  method Divide(a: array<Value>, lt: Less, l: nat, u: nat, ghost s: seq<Value>, ghost l0: nat, ghost u0: nat)
    returns (l1: nat, u1: int, ok: bool, ghost depth: nat)
    requires StrictWeak(lt) && 0 < l0 <= l && l + 2 < u <= u0 && u0 + 1 < a.Length
    requires Permuted(s, a[..], l0, u0) && SortedBut(lt, a[..], l0, u0, l, u)
    requires !lt(a[u - 1], a[l]) && !lt(a[u], a[u - 1])
    modifies a
    ensures ok && l <= l1 && u1 <= u && l1 <= u1 + 1 && u1 - l1 < u - l
    ensures Permuted(s, a[..], l0, u0) && SortedBut(lt, a[..], l0, u0, l1, u1)
    ensures Pow2(depth) <= u - l + 1
    decreases u + 1 - l, 0
  {
    hide StrictWeak, Permuted, Sorted, SortedBut, Around, Pow2;
    ghost var t := a[..];
    var i;
    i, ok := Partition(a, lt, l, u);
    ghost var t1 := a[..];
    WiderTrans(s, t, t1, l, u, l0, u0);
    StillBut(lt, t, t1, l0, u0, l, u);
    var j: nat, e: int;
    l1, u1 := l, u;
    if i - l < u - i {
      j, e, l1 := l, i - 1, i + 1;
    } else {
      j, e, u1 := i + 1, u, i - 1;
    }
    ghost var d;
    ok, d := AuxSort(a, lt, j, e);
    depth := d + 1;
    DepthStep(d, e - j + 1, u - l + 1);
    WiderTrans(s, t1, a[..], j, e, l0, u0);
    PermutedWider(t1, a[..], j, e, l, u);
    StillBut(lt, t1, a[..], l0, u0, l, u);
    StillAround(lt, t1, a[..], t1[i], l, i, u, j, e);
    Narrowed(lt, a[..], l0, u0, l, u, i, j, e, l1, u1);
  }

  /** `table.sort`: the slots next to the list are read by the scans at most, never changed. */
  method Sort(a: array<Value>, lt: Less, n: nat) returns (ok: bool, ghost depth: nat)
    requires StrictWeak(lt) && n + 1 < a.Length
    modifies a
    ensures ok && multiset(a[..]) == multiset(old(a[..])) && a[0] == old(a[0]) && a[n + 1] == old(a[n + 1])
    ensures forall k, m :: 1 <= k < m <= n ==> !lt(a[m], a[k])
    ensures depth > 0 ==> Pow2(depth) <= n
  {
    ok, depth := AuxSort(a, lt, 1, n);
  }
}
