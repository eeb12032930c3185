/** The node vector of a table: chains threaded through a power-of-two vector, and what every change of it keeps
    (ltable.cc). */
module TableHash {
  import opened Numbers


  // Numbers with an int value, and all other numbers, which only ever hash.
  type Int = k: int | -0x8000_0000 <= k < 0x8000_0000

  datatype Key = Nil | NaN | Num(k: Int) | Real(n: nat) | Bool(b: bool) | Str(s: nat) | Ref(r: nat)

  datatype Value = NoValue | Val(v: int)

  /** A slot's key: none yet, a key, or a key whose object the collector has found without a value. */
  datatype SlotKey = Free | Live(key: Key) | Dead(key: Key)

  datatype Slot = Slot(sk: SlotKey, val: Value, next: int)

  const EMPTY := Slot(Free, NoValue, -1)

  /** The divisor for hashes with many factors of two. */
  function OddSize(size: nat): (d: nat)
    requires size > 0
    ensures 0 < d <= size
  {
    if size % 2 == 0 then size - 1 else size
  }

  function MainPosition(h: Key -> nat, key: Key, size: nat): (m: nat)
    requires size > 0
    ensures m < size
  {
    match key
    case Num(k) => if k == 0 then 0 else h(key) % OddSize(size)
    case Real(_) => h(key) % OddSize(size)
    case NaN => h(key) % OddSize(size)
    case Str(_) => h(key) % size
    case Bool(b) => (if b then 1 else 0) % size
    case Ref(_) => h(key) % OddSize(size)
    case Nil => h(key) % OddSize(size)
  }

  // ---- the invariant: every slot has a chain and a rank, and links go up one chain without a gap

  ghost predicate StepOk(nodes: seq<Slot>, c: seq<int>, r: seq<int>, i: nat)
    requires i < |nodes| == |c| == |r|
  {
    var n := nodes[i].next;
    n == -1 || (0 <= n < |nodes| && c[n] == c[i] && r[n] > r[i])
  }

  ghost predicate PairOk(nodes: seq<Slot>, c: seq<int>, r: seq<int>, i: nat, j: nat)
    requires i < |nodes| == |c| == |r| && j < |nodes|
  {
    && (c[i] == c[j] && r[i] == r[j] ==> i == j)
    && (c[i] == c[j] && r[i] < r[j] ==> 0 <= nodes[i].next < |nodes| && r[nodes[i].next] <= r[j])
    && (nodes[i].sk.Free? && c[i] == c[j] ==> i == j)
  }

  /** The key of slot `i` comes after its main position, which holds a key in its own main position. */
  ghost predicate HomeOk(h: Key -> nat, nodes: seq<Slot>, c: seq<int>, r: seq<int>, i: nat)
    requires i < |nodes| == |c| == |r|
  {
    nodes[i].sk.Free? ||
    var m := MainPosition(h, nodes[i].sk.key, |nodes|);
    c[m] == c[i] && r[m] <= r[i] && !nodes[m].sk.Free? && MainPosition(h, nodes[m].sk.key, |nodes|) == m
  }

  /** One live slot a key, and dead slots with the same key come after it. */
  ghost predicate FirstOk(nodes: seq<Slot>, r: seq<int>, i: nat, j: nat)
    requires i < |nodes| == |r| && j < |nodes|
  {
    nodes[i].sk.Live? && !nodes[j].sk.Free? && nodes[j].sk.key == nodes[i].sk.key && i != j ==>
      nodes[j].sk.Dead? && r[i] < r[j]
  }

  ghost predicate Sound(h: Key -> nat, nodes: seq<Slot>, c: seq<int>, r: seq<int>) {
    && 0 < |nodes| == |c| == |r|
    && (forall i :: 0 <= i < |nodes| ==> StepOk(nodes, c, r, i))
    && (forall i, j :: 0 <= i < |nodes| && 0 <= j < |nodes| ==> PairOk(nodes, c, r, i, j))
    && (forall i :: 0 <= i < |nodes| ==> HomeOk(h, nodes, c, r, i))
    && (forall i, j :: 0 <= i < |nodes| && 0 <= j < |nodes| ==> FirstOk(nodes, r, i, j))
    && (forall i :: 0 <= i < |nodes| ==> RestOk(nodes, i))
  }

  /** A free slot is empty and a dead one has no value. */
  predicate RestOk(nodes: seq<Slot>, i: nat)
    requires i < |nodes|
  {
    (nodes[i].sk.Free? ==> nodes[i] == EMPTY) && (nodes[i].sk.Dead? ==> nodes[i].val == NoValue)
  }

  /** No two slots link to the same slot. */
  lemma InDegree(h: Key -> nat, nodes: seq<Slot>, c: seq<int>, r: seq<int>, i: nat, j: nat)
    requires Sound(h, nodes, c, r) && i < |nodes| && j < |nodes| && nodes[i].next == nodes[j].next >= 0
    ensures i == j
  {
    assert StepOk(nodes, c, r, i) && StepOk(nodes, c, r, j);
    assert PairOk(nodes, c, r, i, j) && PairOk(nodes, c, r, j, i);
  }

  lemma FreshSound(h: Key -> nat, nodes: seq<Slot>, c: seq<int>, r: seq<int>)
    requires 0 < |nodes| == |c| == |r| && (forall i :: 0 <= i < |nodes| ==> nodes[i] == EMPTY && c[i] == i)
    ensures Sound(h, nodes, c, r)
  {
    forall i, j | 0 <= i < |nodes| && 0 <= j < |nodes| ensures PairOk(nodes, c, r, i, j) {
      assert c[i] == i && c[j] == j;
    }
  }

  /** Values do not matter to the chains, as long as free slots have none. */
  lemma ValueSound(h: Key -> nat, nodes: seq<Slot>, c: seq<int>, r: seq<int>, i: nat, v: Value)
    requires Sound(h, nodes, c, r) && i < |nodes| && nodes[i].sk.Live?
    ensures Sound(h, nodes[i := nodes[i].(val := v)], c, r)
  {
    var nodes' := nodes[i := nodes[i].(val := v)];
    forall j | 0 <= j < |nodes| ensures RestOk(nodes', j) {
      assert RestOk(nodes, j);
    }
    SameLinks(h, nodes, nodes', c, r);
  }

  lemma SameLinks(h: Key -> nat, nodes: seq<Slot>, nodes': seq<Slot>, c: seq<int>, r: seq<int>)
    requires Sound(h, nodes, c, r) && |nodes'| == |nodes|
    requires forall i :: 0 <= i < |nodes| ==> nodes'[i].sk == nodes[i].sk && nodes'[i].next == nodes[i].next
    requires forall i :: 0 <= i < |nodes| ==> RestOk(nodes', i)
    ensures Sound(h, nodes', c, r)
  {
    forall i | 0 <= i < |nodes| ensures StepOk(nodes', c, r, i) && HomeOk(h, nodes', c, r, i) && RestOk(nodes', i) {
      assert StepOk(nodes, c, r, i) && HomeOk(h, nodes, c, r, i) && RestOk(nodes, i);
    }
    forall i, j | 0 <= i < |nodes| && 0 <= j < |nodes| ensures PairOk(nodes', c, r, i, j) && FirstOk(nodes', r, i, j) {
      assert PairOk(nodes, c, r, i, j) && FirstOk(nodes, r, i, j);
    }
  }

  /** The collector may turn the key of a slot without a value into a dead key at any time. */
  lemma DeadSound(h: Key -> nat, nodes: seq<Slot>, c: seq<int>, r: seq<int>, d: nat)
    requires Sound(h, nodes, c, r) && d < |nodes| && nodes[d].sk.Live? && nodes[d].val == NoValue
    ensures Sound(h, nodes[d := nodes[d].(sk := Dead(nodes[d].sk.key))], c, r)
  {
    var nodes' := nodes[d := nodes[d].(sk := Dead(nodes[d].sk.key))];
    forall i | 0 <= i < |nodes| ensures StepOk(nodes', c, r, i) && HomeOk(h, nodes', c, r, i) && RestOk(nodes', i) {
      assert StepOk(nodes, c, r, i) && HomeOk(h, nodes, c, r, i) && RestOk(nodes, i);
    }
    forall i, j | 0 <= i < |nodes| && 0 <= j < |nodes| ensures PairOk(nodes', c, r, i, j) && FirstOk(nodes', r, i, j) {
      assert PairOk(nodes, c, r, i, j) && FirstOk(nodes, r, i, j);
    }
  }

  // ---- the three ways a new key gets a slot

  ghost predicate Absent(nodes: seq<Slot>, key: Key) {
    forall i :: 0 <= i < |nodes| ==> nodes[i].sk != Live(key)
  }

  /** Its main position has no value: the key takes the slot over and the links stay. */
  lemma TakeOver(h: Key -> nat, nodes: seq<Slot>, c: seq<int>, r: seq<int>, key: Key)
    requires Sound(h, nodes, c, r) && Absent(nodes, key)
    ensures var mp := MainPosition(h, key, |nodes|);
            Sound(h, nodes[mp := nodes[mp].(sk := Live(key))], c, r)
  {
    var mp := MainPosition(h, key, |nodes|);
    var nodes' := nodes[mp := nodes[mp].(sk := Live(key))];
    forall i | 0 <= i < |nodes| ensures StepOk(nodes', c, r, i) && HomeOk(h, nodes', c, r, i) && RestOk(nodes', i) {
      assert StepOk(nodes, c, r, i) && HomeOk(h, nodes, c, r, i) && RestOk(nodes, i);
    }
    forall i, j | 0 <= i < |nodes| && 0 <= j < |nodes| ensures PairOk(nodes', c, r, i, j) {
      assert PairOk(nodes, c, r, i, j);
    }
    forall i, j | 0 <= i < |nodes| && 0 <= j < |nodes| ensures FirstOk(nodes', r, i, j) {
      assert FirstOk(nodes, r, i, j);
      if i == mp && j != mp && !nodes[j].sk.Free? && nodes[j].sk.key == key {
        assert HomeOk(h, nodes, c, r, j) && PairOk(nodes, c, r, mp, j);
      }
    }
  }

  function Doubled(r: seq<int>): (s: seq<int>)
    ensures |s| == |r| && forall i :: 0 <= i < |r| ==> s[i] == 2 * r[i]
  {
    seq(|r|, i requires 0 <= i < |r| => 2 * r[i])
  }

  /** The colliding key is in its own main position: the new key goes into a free slot, linked right after it. */
  function Appended(nodes: seq<Slot>, mp: nat, n: nat, key: Key): seq<Slot>
    requires mp < |nodes| && n < |nodes|
  {
    nodes[n := Slot(Live(key), NoValue, nodes[mp].next)][mp := nodes[mp].(next := n)]
  }

  lemma AppendSteps(h: Key -> nat, nodes: seq<Slot>, c: seq<int>, r: seq<int>, mp: nat, n: nat, key: Key)
    requires Sound(h, nodes, c, r) && mp < |nodes| && n < |nodes| && nodes[n].sk.Free? && !nodes[mp].sk.Free?
    ensures var nodes', c', r' := Appended(nodes, mp, n, key), c[n := c[mp]], Doubled(r)[n := 2 * r[mp] + 1];
            && (forall i :: 0 <= i < |nodes| ==> StepOk(nodes', c', r', i))
            && (forall i, j :: 0 <= i < |nodes| && 0 <= j < |nodes| ==> PairOk(nodes', c', r', i, j))
  {
    var nodes', c', r' := Appended(nodes, mp, n, key), c[n := c[mp]], Doubled(r)[n := 2 * r[mp] + 1];
    forall i | 0 <= i < |nodes| ensures StepOk(nodes', c', r', i) {
      assert StepOk(nodes, c, r, i) && StepOk(nodes, c, r, mp);
      NotLinked(h, nodes, c, r, n, i);
      NotLinked(h, nodes, c, r, n, mp);
    }
    forall i, j | 0 <= i < |nodes| && 0 <= j < |nodes| ensures PairOk(nodes', c', r', i, j) {
      NotLinked(h, nodes, c, r, n, i);
      NotLinked(h, nodes, c, r, n, mp);
      assert PairOk(nodes, c, r, i, j) && PairOk(nodes, c, r, mp, j) && PairOk(nodes, c, r, i, mp)
               && PairOk(nodes, c, r, n, j);
      assert PairOk(nodes, c, r, n, i);
    }
  }

  /** Nothing links to a free slot. */
  lemma NotLinked(h: Key -> nat, nodes: seq<Slot>, c: seq<int>, r: seq<int>, n: nat, i: nat)
    requires Sound(h, nodes, c, r) && n < |nodes| && nodes[n].sk.Free? && i < |nodes|
    ensures nodes[i].next != n && nodes[n].next == -1 && (c[i] == c[n] ==> i == n)
  {
    assert StepOk(nodes, c, r, i) && PairOk(nodes, c, r, n, i) && RestOk(nodes, n);
  }

  lemma Append(h: Key -> nat, nodes: seq<Slot>, c: seq<int>, r: seq<int>, n: nat, key: Key)
    requires Sound(h, nodes, c, r) && Absent(nodes, key) && n < |nodes| && nodes[n].sk.Free?
    requires var mp := MainPosition(h, key, |nodes|);
             nodes[mp].sk.Live? && MainPosition(h, nodes[mp].sk.key, |nodes|) == mp
    ensures var mp := MainPosition(h, key, |nodes|);
            Sound(h, Appended(nodes, mp, n, key), c[n := c[mp]], Doubled(r)[n := 2 * r[mp] + 1])
  {
    hide MainPosition;
    var mp := MainPosition(h, key, |nodes|);
    var nodes' := Appended(nodes, mp, n, key);
    var c' := c[n := c[mp]];
    var r' := Doubled(r)[n := 2 * r[mp] + 1];
    AppendSteps(h, nodes, c, r, mp, n, key);
    forall i | 0 <= i < |nodes| ensures HomeOk(h, nodes', c', r', i) && RestOk(nodes', i) {
      assert HomeOk(h, nodes, c, r, i) && RestOk(nodes, i);
    }
    forall i, j | 0 <= i < |nodes| && 0 <= j < |nodes| ensures FirstOk(nodes', r', i, j) {
      assert FirstOk(nodes, r, i, j);
      if i == n && j != n && !nodes[j].sk.Free? && nodes[j].sk.key == key {
        assert HomeOk(h, nodes, c, r, j) && PairOk(nodes, c, r, mp, j);
      }
    }
  }

  /** The colliding key is not in its own main position: it moves to a free slot, which takes its place in its chain,
      and the new key gets the slot alone. */
  function Moved(nodes: seq<Slot>, prev: nat, mp: nat, n: nat, key: Key): seq<Slot>
    requires prev < |nodes| && mp < |nodes| && n < |nodes|
  {
    nodes[prev := nodes[prev].(next := n)][n := nodes[mp]][mp := Slot(Live(key), NoValue, -1)]
  }

  lemma MoveSteps(h: Key -> nat, nodes: seq<Slot>, c: seq<int>, r: seq<int>, prev: nat, mp: nat, n: nat, key: Key,
          lone: int)
    requires Sound(h, nodes, c, r) && prev < |nodes| && mp < |nodes| && n < |nodes| && nodes[n].sk.Free?
               && nodes[mp].sk.Live?
    requires nodes[prev].next == mp && forall i :: 0 <= i < |c| ==> c[i] < lone
    ensures var nodes', c', r' := Moved(nodes, prev, mp, n, key), c[n := c[mp]][mp := lone], r[n := r[mp]];
            && (forall i :: 0 <= i < |nodes| ==> StepOk(nodes', c', r', i))
            && (forall i, j :: 0 <= i < |nodes| && 0 <= j < |nodes| ==> PairOk(nodes', c', r', i, j))
  {
    var nodes', c', r' := Moved(nodes, prev, mp, n, key), c[n := c[mp]][mp := lone], r[n := r[mp]];
    NotLinked(h, nodes, c, r, n, prev);
    NotLinked(h, nodes, c, r, n, mp);
    assert StepOk(nodes, c, r, prev) && StepOk(nodes, c, r, mp);
    forall i | 0 <= i < |nodes| ensures StepOk(nodes', c', r', i) {
      assert StepOk(nodes, c, r, i);
      NotLinked(h, nodes, c, r, n, i);
      if nodes[i].next == mp { InDegree(h, nodes, c, r, i, prev); }
    }
    forall i, j | 0 <= i < |nodes| && 0 <= j < |nodes| ensures PairOk(nodes', c', r', i, j) {
      NotLinked(h, nodes, c, r, n, i);
      NotLinked(h, nodes, c, r, n, j);
      if nodes[i].next == mp { InDegree(h, nodes, c, r, i, prev); }
      assert PairOk(nodes, c, r, i, j) && PairOk(nodes, c, r, mp, j) && PairOk(nodes, c, r, i, mp);
    }
  }

  lemma Move(h: Key -> nat, nodes: seq<Slot>, c: seq<int>, r: seq<int>, prev: nat, n: nat, key: Key, lone: int)
    requires Sound(h, nodes, c, r) && Absent(nodes, key) && prev < |nodes| && n < |nodes| && nodes[n].sk.Free?
    requires var mp := MainPosition(h, key, |nodes|);
             nodes[prev].next == mp && nodes[mp].sk.Live? && MainPosition(h, nodes[mp].sk.key, |nodes|) != mp
    requires forall i :: 0 <= i < |c| ==> c[i] < lone
    ensures var mp := MainPosition(h, key, |nodes|);
            Sound(h, Moved(nodes, prev, mp, n, key), c[n := c[mp]][mp := lone], r[n := r[mp]])
  {
    hide MainPosition;
    var mp := MainPosition(h, key, |nodes|);
    var nodes' := Moved(nodes, prev, mp, n, key);
    var c' := c[n := c[mp]][mp := lone];
    var r' := r[n := r[mp]];
    MoveSteps(h, nodes, c, r, prev, mp, n, key, lone);
    NotLinked(h, nodes, c, r, n, prev);
    forall i | 0 <= i < |nodes| ensures HomeOk(h, nodes', c', r', i) && RestOk(nodes', i) {
      assert HomeOk(h, nodes, c, r, i) && RestOk(nodes, i);
      assert HomeOk(h, nodes, c, r, mp) && RestOk(nodes, mp);
    }
    forall i, j | 0 <= i < |nodes| && 0 <= j < |nodes| ensures FirstOk(nodes', r', i, j) {
      assert FirstOk(nodes, r, i, j) && FirstOk(nodes, r, mp, j) && FirstOk(nodes, r, i, mp);
      assert HomeOk(h, nodes, c, r, j);
    }
  }

  // ---- the map the table stands for

  const MAXASIZE := 0x400_0000

  function Lookup(model: map<Key, int>, key: Key): Value {
    if key in model then Val(model[key]) else NoValue
  }

  predicate InArray(key: Key, size: nat) { key.Num? && 1 <= key.k <= size }

  /** `slots` says where each live key sits. */
  ghost predicate Placed(nodes: seq<Slot>, slots: map<Key, nat>) {
    && (forall k :: k in slots ==> slots[k] < |nodes| && nodes[slots[k]].sk == Live(k))
    && (forall i :: 0 <= i < |nodes| && nodes[i].sk.Live? ==> nodes[i].sk.key in slots && slots[nodes[i].sk.key] == i)
  }

  /** The array part and the node vector together hold exactly the map. */
  ghost predicate Faithful(arr: seq<Value>, size: nat, nodes: seq<Slot>, slots: map<Key, nat>, model: map<Key, int>) {
    && size <= |arr| && size <= MAXASIZE
    && (forall i :: 0 <= i < size ==> arr[i] == Lookup(model, Num(i + 1)))
    && (forall k :: k in slots ==>
          k != Nil && k != NaN && !InArray(k, size) && slots[k] < |nodes| && nodes[slots[k]].val == Lookup(model, k))
    && (forall k :: k in model ==> k != Nil && k != NaN && (InArray(k, size) || k in slots))
  }

  ghost function Top(r: seq<int>): (t: int)
    ensures forall i :: 0 <= i < |r| ==> r[i] <= t
  {
    if r == [] then 0
    else
      var t := Top(r[1..]);
      assert forall i :: 1 <= i < |r| ==> r[i] == r[1..][i - 1];
      if r[0] > t then r[0] else t
  }

  /** A live key is found by following links from its main position. */
  lemma OnTheWay(h: Key -> nat, nodes: seq<Slot>, c: seq<int>, r: seq<int>, i: nat, t: nat)
    requires Sound(h, nodes, c, r) && i < |nodes| && t < |nodes| && c[i] == c[t] && r[i] <= r[t]
    ensures i != t ==> 0 <= nodes[i].next < |nodes| && r[nodes[i].next] <= r[t]
  {
    assert PairOk(nodes, c, r, i, t);
  }

  lemma StepUp(h: Key -> nat, nodes: seq<Slot>, c: seq<int>, r: seq<int>, i: nat)
    requires Sound(h, nodes, c, r) && i < |nodes|
    ensures nodes[i].next != -1 ==> 0 <= nodes[i].next < |nodes| && c[nodes[i].next] == c[i] && r[nodes[i].next] > r[i]
  {
    assert StepOk(nodes, c, r, i);
  }

  lemma AtHome(h: Key -> nat, nodes: seq<Slot>, c: seq<int>, r: seq<int>, t: nat)
    requires Sound(h, nodes, c, r) && t < |nodes| && !nodes[t].sk.Free?
    ensures var m := MainPosition(h, nodes[t].sk.key, |nodes|); c[m] == c[t] && r[m] <= r[t]
  {
    assert HomeOk(h, nodes, c, r, t);
  }

  // ---- what a new key does to the map

  ghost predicate NoDead(nodes: seq<Slot>) {
    forall i :: 0 <= i < |nodes| ==> !nodes[i].sk.Dead?
  }

  lemma KeyAbsent(nodes: seq<Slot>, slots: map<Key, nat>, key: Key)
    requires Placed(nodes, slots) && key !in slots
    ensures Absent(nodes, key)
  {
  }

  /** Where the keys sit when `key` takes slot `mp` over. */
  function Replaced(nodes: seq<Slot>, slots: map<Key, nat>, mp: nat, key: Key): map<Key, nat>
    requires mp < |nodes|
  {
    (if nodes[mp].sk.Live? then slots - {nodes[mp].sk.key} else slots)[key := mp]
  }

  lemma TakeOverPlaced(nodes: seq<Slot>, slots: map<Key, nat>, mp: nat, key: Key)
    requires Placed(nodes, slots) && mp < |nodes| && key !in slots
    ensures Placed(nodes[mp := nodes[mp].(sk := Live(key))], Replaced(nodes, slots, mp, key))
  {
  }

  lemma TakeOverFaithful(arr: seq<Value>, size: nat, nodes: seq<Slot>, slots: map<Key, nat>, model: map<Key, int>,
          mp: nat, key: Key)
    requires Placed(nodes, slots) && Faithful(arr, size, nodes, slots, model)
    requires mp < |nodes| && nodes[mp].val == NoValue
    requires key !in slots && key !in model && key != Nil && key != NaN && !InArray(key, size)
    ensures Faithful(arr, size, nodes[mp := nodes[mp].(sk := Live(key))], Replaced(nodes, slots, mp, key), model)
  {
  }

  lemma AppendedFaithful(arr: seq<Value>, size: nat, nodes: seq<Slot>, slots: map<Key, nat>, model: map<Key, int>,
          mp: nat, n: nat, key: Key)
    requires Placed(nodes, slots) && Faithful(arr, size, nodes, slots, model)
    requires mp < |nodes| && n < |nodes| && nodes[n].sk.Free? && nodes[mp].sk.Live?
    requires key !in slots && key !in model && key != Nil && key != NaN && !InArray(key, size)
    ensures Placed(Appended(nodes, mp, n, key), slots[key := n])
    ensures Faithful(arr, size, Appended(nodes, mp, n, key), slots[key := n], model)
  {
  }

  lemma MovedPlaced(nodes: seq<Slot>, slots: map<Key, nat>, prev: nat, mp: nat, n: nat, key: Key)
    requires Placed(nodes, slots)
    requires prev < |nodes| && mp < |nodes| && n < |nodes| && prev != mp && nodes[n].sk.Free? && prev != n
               && nodes[mp].sk.Live?
    requires key !in slots
    ensures nodes[mp].sk.key in slots
    ensures Placed(Moved(nodes, prev, mp, n, key), slots[nodes[mp].sk.key := n][key := mp])
  {
  }

  lemma MovedFaithful(arr: seq<Value>, size: nat, nodes: seq<Slot>, slots: map<Key, nat>, model: map<Key, int>,
          prev: nat, mp: nat, n: nat, key: Key)
    requires Placed(nodes, slots) && Faithful(arr, size, nodes, slots, model)
    requires prev < |nodes| && mp < |nodes| && n < |nodes| && prev != mp && nodes[n].sk.Free? && prev != n
               && nodes[mp].sk.Live?
    requires key !in slots && key !in model && key != Nil && key != NaN && !InArray(key, size)
    ensures Faithful(arr, size, Moved(nodes, prev, mp, n, key), slots[nodes[mp].sk.key := n][key := mp], model)
  {
    var nodes' := Moved(nodes, prev, mp, n, key);
    var slots' := slots[nodes[mp].sk.key := n][key := mp];
    forall k | k in slots' ensures slots'[k] < |nodes'| && nodes'[slots'[k]].val == Lookup(model, k) {
      if k != key && k != nodes[mp].sk.key {
        assert slots[k] != mp && slots[k] != n;
      }
    }
  }

  /** Storing a value for a key that has a slot. */
  lemma StoredFaithful(arr: seq<Value>, size: nat, nodes: seq<Slot>, slots: map<Key, nat>, model: map<Key, int>,
          key: Key, v: Value)
    requires Placed(nodes, slots) && Faithful(arr, size, nodes, slots, model) && key in slots
    ensures Placed(nodes[slots[key] := nodes[slots[key]].(val := v)], slots)
    ensures Faithful(arr, size, nodes[slots[key] := nodes[slots[key]].(val := v)], slots, Updated(model, key, v))
  {
  }

  lemma ArrayFaithful(arr: seq<Value>, size: nat, nodes: seq<Slot>, slots: map<Key, nat>, model: map<Key, int>, i: nat,
          v: Value)
    requires Faithful(arr, size, nodes, slots, model) && i < size
    ensures Faithful(arr[i := v], size, nodes, slots, Updated(model, Num(i + 1), v))
  {
  }

  function Updated(model: map<Key, int>, key: Key, v: Value): map<Key, int> {
    match v
    case NoValue => model - {key}
    case Val(n) => model[key := n]
  }

  lemma SoundSize(h: Key -> nat, nodes: seq<Slot>, c: seq<int>, r: seq<int>)
    requires Sound(h, nodes, c, r)
    ensures 0 < |nodes| == |c| == |r|
  {
  }

  lemma MovedParts(nodes: seq<Slot>, prev: nat, mp: nat, n: nat, key: Key)
    requires prev < |nodes| && mp < |nodes| && n < |nodes| && prev != mp && n != mp && prev != n && nodes[mp].sk.Live?
    ensures Moved(nodes, prev, mp, n, key)
              == nodes[prev := nodes[prev].(next := n)][n := nodes[mp]][mp := Slot(Live(key), NoValue, -1)]
    ensures NoDead(nodes) ==> NoDead(Moved(nodes, prev, mp, n, key))
    ensures forall i :: 0 <= i < |nodes| && !nodes[i].sk.Free? ==> !Moved(nodes, prev, mp, n, key)[i].sk.Free?
    ensures !Moved(nodes, prev, mp, n, key)[n].sk.Free?
  {
  }

  // ---- room for the keys of the node vector

  /** The keys that do not go to an array part of size `n`. */
  ghost function Out(keys: set<Key>, n: nat): set<Key> {
    set k | k in keys && !InArray(k, n)
  }

  ghost predicate HasFree(nodes: seq<Slot>) {
    exists i :: 0 <= i < |nodes| && nodes[i].sk.Free?
  }

  ghost function Upto(n: nat): (s: set<nat>)
    ensures |s| == n && forall i :: i in s <==> 0 <= i < n
  {
    if n == 0 then {} else Upto(n - 1) + {n - 1}
  }

  lemma {:induction false} InjectiveSize(a: set<nat>, m: map<nat, Key>, b: set<Key>)
    requires forall i :: i in a ==> i in m && m[i] in b
    requires forall i, j :: i in a && j in a && m[i] == m[j] ==> i == j
    ensures |a| <= |b|
    decreases |a|
  {
    if a != {} {
      var i :| i in a;
      InjectiveSize(a - {i}, m, b - {m[i]});
    }
  }

  /** Fewer live keys than slots, and no dead ones: some slot is free. */
  lemma SomeFree(nodes: seq<Slot>, slots: map<Key, nat>)
    requires Placed(nodes, slots) && NoDead(nodes) && |slots.Keys| < |nodes|
    ensures HasFree(nodes)
  {
    if !HasFree(nodes) {
      forall i | 0 <= i < |nodes| ensures nodes[i].sk.Live? {
      }
      var m: map<nat, Key> := map i | i in Upto(|nodes|) :: nodes[i].sk.key;
      InjectiveSize(Upto(|nodes|), m, slots.Keys);
    }
  }

  lemma SubsetSize<T>(a: set<T>, b: set<T>)
    requires a <= b
    ensures |a| <= |b|
  {
    assert b == a + (b - a);
  }

  /** Room for one more key out of a set that fits. */
  lemma RoomFor(nodes: seq<Slot>, slots: map<Key, nat>, all: set<Key>, key: Key)
    requires Placed(nodes, slots) && NoDead(nodes) && key in all && key !in slots && slots.Keys <= all
               && |all| <= |nodes|
    ensures HasFree(nodes)
  {
    SubsetSize(slots.Keys + {key}, all);
    assert |slots.Keys + {key}| == |slots.Keys| + 1;
    SomeFree(nodes, slots);
  }

  // ---- starting over with an empty vector

  /** The smallest power of two that is not below a size. */
  function CeilPower(n: nat): (p: nat)
    requires n > 0
    ensures PowerOfTwo(p) && n <= p < 2 * n
  {
    if n == 1 then 1 else 2 * CeilPower((n + 1) / 2)
  }

  lemma {:induction false} PowerBound(p: nat, q: nat)
    requires PowerOfTwo(p) && PowerOfTwo(q) && p < 2 * q
    ensures p <= q
    decreases p
  {
    if p > 1 && q > 1 {
      PowerBound(p / 2, q / 2);
    }
  }

  lemma EmptyFaithful(arr: seq<Value>, was: nat, size: nat, nodes: seq<Slot>, slots: map<Key, nat>, model: map<Key,
          int>, arr': seq<Value>, nodes': seq<Slot>)
    requires Faithful(arr, was, nodes, slots, model) && size <= |arr'| && size <= MAXASIZE
    requires forall i :: 0 <= i < size ==> arr'[i] == if i < was then arr[i] else NoValue
    requires forall i :: 0 <= i < |nodes'| ==> nodes'[i] == EMPTY
    ensures Faithful(arr', size, nodes', map[], Part(model, if was < size then was else size))
    ensures Placed(nodes', map[])
  {
  }

  /** The entries an array part of size `n` holds. */
  ghost function Part(model: map<Key, int>, n: nat): map<Key, int> {
    map k | k in model && InArray(k, n) :: model[k]
  }

  lemma PartNext(m: map<Key, int>, i: nat)
    requires i < MAXASIZE
    ensures Lookup(m, Num(i + 1)) == NoValue ==> Part(m, i + 1) == Part(m, i)
    ensures Lookup(m, Num(i + 1)) != NoValue ==>
              && Num(i + 1) in m && Num(i + 1) !in Part(m, i)
              && Part(m, i + 1) == Part(m, i)[Num(i + 1) := m[Num(i + 1)]]
  {
  }

  lemma OutMember(keys: set<Key>, n: nat, key: Key)
    requires key in keys
    ensures !InArray(key, n) ==> key in Out(keys, n)
  {
  }

  lemma OutWithin(keys: set<Key>, n: nat)
    ensures Out(keys, n) <= keys
  {
  }

  lemma OutGrows(keys: set<Key>, ek: Key, n: nat)
    ensures |Out(keys, n)| <= |Out(keys + {ek}, n)| && Out(keys, n) <= Out(keys + {ek}, n)
    ensures !InArray(ek, n) ==> ek in Out(keys + {ek}, n)
    ensures |Out(keys + {ek}, n)| <= |keys| + 1
  {
    SubsetSize(Out(keys, n), Out(keys + {ek}, n));
    SubsetSize(Out(keys + {ek}, n), keys + {ek});
  }

  /** A node vector that holds the entries of a map that are not in an array part of size `was`. */
  ghost predicate Holding(s: seq<Slot>, m: map<Key, int>, slots: map<Key, nat>, was: nat) {
    && (forall i :: 0 <= i < |s| && s[i].val != NoValue ==> s[i].sk.Live?)
    && (forall k :: k in slots ==>
         k != Nil && k != NaN && !InArray(k, was) && slots[k] < |s| && s[slots[k]].val == Lookup(m, k))
    && (forall k :: k in m ==> InArray(k, was) || k in slots)
  }

  lemma FaithfulHolding(h: Key -> nat, c: seq<int>, r: seq<int>, arr: seq<Value>, was: nat, s: seq<Slot>,
          slots: map<Key, nat>, m: map<Key, int>)
    requires Sound(h, s, c, r) && Faithful(arr, was, s, slots, m)
    ensures Holding(s, m, slots, was)
  {
    forall i | 0 <= i < |s| && s[i].val != NoValue ensures s[i].sk.Live? {
      assert RestOk(s, i);
    }
  }

  lemma FaithfulArray(arr: seq<Value>, was: nat, s: seq<Slot>, slots: map<Key, nat>, m: map<Key, int>)
    requires Faithful(arr, was, s, slots, m)
    ensures was <= |arr| && was <= MAXASIZE && forall i :: 0 <= i < was ==> arr[i] == Lookup(m, Num(i + 1))
  {
  }

  /** The array part, and the nodes from `i` on. */
  ghost function Rest(m: map<Key, int>, slots: map<Key, nat>, was: nat, i: nat): map<Key, int> {
    map k | k in m && (InArray(k, was) || (k in slots && slots[k] >= i)) :: m[k]
  }

  lemma RestAll(s: seq<Slot>, m: map<Key, int>, slots: map<Key, nat>, was: nat)
    requires Holding(s, m, slots, was)
    ensures Rest(m, slots, was, |s|) == Part(m, was) && Rest(m, slots, was, 0) == m
  {
  }

  lemma RestNext(s: seq<Slot>, m: map<Key, int>, slots: map<Key, nat>, was: nat, i: nat)
    requires Placed(s, slots) && Holding(s, m, slots, was) && i < |s|
    ensures s[i].val == NoValue ==> Rest(m, slots, was, i) == Rest(m, slots, was, i + 1)
    ensures s[i].val != NoValue ==>
              && s[i].sk.Live? && s[i].sk.key in m && s[i].val == Val(m[s[i].sk.key])
              && s[i].sk.key != Nil && s[i].sk.key != NaN && s[i].sk.key !in Rest(m, slots, was, i + 1)
              && Rest(m, slots, was, i) == Rest(m, slots, was, i + 1)[s[i].sk.key := m[s[i].sk.key]]
  {
  }

  lemma PlacedAt(nodes: seq<Slot>, slots: map<Key, nat>, key: Key)
    requires Placed(nodes, slots) && key in slots
    ensures slots[key] < |nodes| && nodes[slots[key]].sk == Live(key)
  {
  }

  lemma FullSlot(h: Key -> nat, nodes: seq<Slot>, c: seq<int>, r: seq<int>, i: nat)
    requires Sound(h, nodes, c, r) && i < |nodes|
    ensures nodes[i].val != NoValue ==> nodes[i].sk.Live?
    ensures nodes[i].sk.Free? ==> nodes[i] == EMPTY
  {
    assert RestOk(nodes, i);
  }

  // ---- finding a key, live or dead

  const MAX_INT := 0x7fff_fffd

  /** Slot `i` has the key, and every other slot that has it comes later in the chain. */
  ghost predicate FirstWith(nodes: seq<Slot>, r: seq<int>, key: Key, i: nat) {
    && i < |nodes| == |r| && !nodes[i].sk.Free? && nodes[i].sk.key == key
    && forall j :: 0 <= j < |nodes| && !nodes[j].sk.Free? && nodes[j].sk.key == key && j != i ==> r[i] < r[j]
  }

  /** Every slot that has the key is still to be met from `n` on. */
  ghost predicate Ahead(nodes: seq<Slot>, c: seq<int>, r: seq<int>, key: Key, n: nat)
    requires n < |nodes| == |c| == |r|
  {
    forall j :: 0 <= j < |nodes| && !nodes[j].sk.Free? && nodes[j].sk.key == key ==> c[n] == c[j] && r[n] <= r[j]
  }

  lemma AllAhead(h: Key -> nat, nodes: seq<Slot>, c: seq<int>, r: seq<int>, key: Key)
    requires Sound(h, nodes, c, r)
    ensures Ahead(nodes, c, r, key, MainPosition(h, key, |nodes|))
  {
    forall j | 0 <= j < |nodes| && !nodes[j].sk.Free? && nodes[j].sk.key == key
      ensures c[MainPosition(h, key, |nodes|)] == c[j] && r[MainPosition(h, key, |nodes|)] <= r[j]
    {
      AtHome(h, nodes, c, r, j);
    }
  }

  lemma AheadStep(h: Key -> nat, nodes: seq<Slot>, c: seq<int>, r: seq<int>, key: Key, n: nat)
    requires Sound(h, nodes, c, r) && n < |nodes| && Ahead(nodes, c, r, key, n)
    requires nodes[n].sk.Free? || nodes[n].sk.key != key
    ensures nodes[n].next == -1 ==> forall j :: 0 <= j < |nodes| && !nodes[j].sk.Free? ==> nodes[j].sk.key != key
    ensures nodes[n].next != -1 ==> 0 <= nodes[n].next < |nodes| && Ahead(nodes, c, r, key, nodes[n].next)
  {
    StepUp(h, nodes, c, r, n);
    forall j | 0 <= j < |nodes| && !nodes[j].sk.Free? && nodes[j].sk.key == key
      ensures nodes[n].next != -1 && c[nodes[n].next] == c[j] && r[nodes[n].next] <= r[j]
    {
      OnTheWay(h, nodes, c, r, n, j);
    }
  }

  lemma FirstFound(h: Key -> nat, nodes: seq<Slot>, c: seq<int>, r: seq<int>, key: Key, n: nat)
    requires Sound(h, nodes, c, r) && n < |nodes| && Ahead(nodes, c, r, key, n)
    requires !nodes[n].sk.Free? && nodes[n].sk.key == key
    ensures FirstWith(nodes, r, key, n)
  {
    forall j | 0 <= j < |nodes| && !nodes[j].sk.Free? && nodes[j].sk.key == key && j != n ensures r[n] < r[j] {
      assert PairOk(nodes, c, r, n, j);
    }
  }

  lemma LiveFirst(h: Key -> nat, nodes: seq<Slot>, c: seq<int>, r: seq<int>, i: nat)
    requires Sound(h, nodes, c, r) && i < |nodes| && nodes[i].sk.Live?
    ensures FirstWith(nodes, r, nodes[i].sk.key, i)
  {
    forall j | 0 <= j < |nodes| && !nodes[j].sk.Free? && nodes[j].sk.key == nodes[i].sk.key && j != i
      ensures r[i] < r[j]
    {
      assert FirstOk(nodes, r, i, j);
    }
  }

  lemma {:induction false} RunSize(model: map<Key, int>, n: nat)
    requires n <= 0x7fff_ffff && forall k: nat :: 0 < k <= n ==> Num(k) in model
    ensures n <= |model.Keys|
    decreases n
  {
    if n > 0 {
      var rest := model - {Num(n)};
      RunSize(rest, n - 1);
      assert rest.Keys == model.Keys - {Num(n)};
    }
  }

  lemma NoSlots(nodes: seq<Slot>, slots: map<Key, nat>)
    requires Placed(nodes, slots) && forall i :: 0 <= i < |nodes| ==> nodes[i] == EMPTY
    ensures forall k :: k !in slots
  {
  }

  // ---- positions in a traversal

  predicate Collectable(key: Key) { key.Str? || key.Ref? }

  /** The position of a key: its index in the array part, or the first slot that has it. */
  ghost predicate IndexIn(nodes: seq<Slot>, r: seq<int>, size: nat, key: Key, i: int) {
    if InArray(key, size) then i == key.k - 1
    else size <= i < size + |nodes| && key != Nil && FirstWith(nodes, r, key, i - size)
  }

  /** Slots keep their keys, whether dead or alive. */
  ghost predicate SameKeys(nodes: seq<Slot>, nodes': seq<Slot>) {
    |nodes| == |nodes'| && forall i :: 0 <= i < |nodes| ==> SameKey(nodes[i].sk, nodes'[i].sk)
  }

  predicate SameKey(a: SlotKey, b: SlotKey) { if a.Free? then b.Free? else !b.Free? && b.key == a.key }

  lemma SameIndexes(nodes: seq<Slot>, nodes': seq<Slot>, r: seq<int>, size: nat)
    requires SameKeys(nodes, nodes')
    ensures forall key, i :: IndexIn(nodes, r, size, key, i) <==> IndexIn(nodes', r, size, key, i)
  {
    forall key, i ensures IndexIn(nodes, r, size, key, i) <==> IndexIn(nodes', r, size, key, i) {
      if IndexIn(nodes, r, size, key, i) || IndexIn(nodes', r, size, key, i) {
        assert forall j :: 0 <= j < |nodes| ==> SameKey(nodes[j].sk, nodes'[j].sk);
      }
    }
  }

  lemma IndexOnce(nodes: seq<Slot>, r: seq<int>, size: nat, key: Key, i: int, j: int)
    requires IndexIn(nodes, r, size, key, i) && IndexIn(nodes, r, size, key, j)
    ensures i == j
  {
  }

  lemma OneKeyThere(nodes: seq<Slot>, r: seq<int>, size: nat, a: Key, b: Key, i: int)
    requires IndexIn(nodes, r, size, a, i) && IndexIn(nodes, r, size, b, i)
    ensures a == b
  {
  }

  /** The keys visited so far, each with its position, in increasing order up to `p`. */
  ghost predicate Trail(nodes: seq<Slot>, r: seq<int>, size: nat, visited: seq<Key>, places: seq<int>, p: int) {
    && |visited| == |places|
    && (forall a :: 0 <= a < |visited| ==> IndexIn(nodes, r, size, visited[a], places[a]) && places[a] <= p)
    && (forall a, b :: 0 <= a < b < |places| ==> places[a] < places[b])
  }

  /** Every one of some keys whose position is up to `p` has been visited. */
  ghost predicate Covered(nodes: seq<Slot>, r: seq<int>, size: nat, keys: set<Key>, visited: seq<Key>, p: int) {
    forall k, j :: k in keys && j <= p && IndexIn(nodes, r, size, k, j) ==> k in visited
  }

  lemma NothingCovered(nodes: seq<Slot>, r: seq<int>, size: nat, keys: set<Key>)
    ensures Covered(nodes, r, size, keys, [], -1)
  {
  }

  lemma SameCovered(nodes: seq<Slot>, nodes': seq<Slot>, r: seq<int>, size: nat, keys: set<Key>, keys': set<Key>,
          visited: seq<Key>, p: int)
    requires SameKeys(nodes, nodes') && keys' <= keys && Covered(nodes, r, size, keys, visited, p)
    ensures Covered(nodes', r, size, keys', visited, p)
  {
    hide IndexIn;
    SameIndexes(nodes, nodes', r, size);
  }

  lemma TrailNext(nodes: seq<Slot>, r: seq<int>, size: nat, visited: seq<Key>, places: seq<int>, p: int, k: Key, i: int)
    requires Trail(nodes, r, size, visited, places, p) && p < i && IndexIn(nodes, r, size, k, i)
    ensures Trail(nodes, r, size, visited + [k], places + [i], i)
  {
    hide IndexIn;
  }

  lemma TrailDistinct(nodes: seq<Slot>, r: seq<int>, size: nat, visited: seq<Key>, places: seq<int>, p: int)
    requires Trail(nodes, r, size, visited, places, p)
    ensures forall a, b :: 0 <= a < b < |visited| ==> visited[a] != visited[b]
  {
    hide IndexIn;
    forall a, b | 0 <= a < b < |visited| ensures visited[a] != visited[b] {
      if visited[a] == visited[b] {
        IndexOnce(nodes, r, size, visited[a], places[a], places[b]);
      }
    }
  }

  lemma SameTrail(nodes: seq<Slot>, nodes': seq<Slot>, r: seq<int>, size: nat, visited: seq<Key>, places: seq<int>,
          p: int)
    requires SameKeys(nodes, nodes') && Trail(nodes, r, size, visited, places, p)
    ensures Trail(nodes', r, size, visited, places, p)
  {
    hide IndexIn;
    SameIndexes(nodes, nodes', r, size);
  }

  lemma DeadFaithful(arr: seq<Value>, size: nat, nodes: seq<Slot>, slots: map<Key, nat>, model: map<Key, int>, i: nat)
    requires Placed(nodes, slots) && Faithful(arr, size, nodes, slots, model)
    requires i < |nodes| && nodes[i].sk.Live? && nodes[i].val == NoValue
    ensures Placed(nodes[i := nodes[i].(sk := Dead(nodes[i].sk.key))], slots - {nodes[i].sk.key})
    ensures Faithful(arr, size, nodes[i := nodes[i].(sk := Dead(nodes[i].sk.key))], slots - {nodes[i].sk.key}, model)
  {
  }
}
