/** Tables: an array part and a chained scatter hash with Brent's variation, kept equal to a finite map (ltable.cc). */
module Tables {
  import opened TableHash
  import opened TableSizes
  import opened Numbers

  datatype Place = InArrayPart(i: nat) | InNode(i: nat)

  datatype Outcome = Ready(at: Place) | NilIndex | NaNIndex | Overflow

  /** What may happen between two steps of a traversal: an existing field changes, or the collector visits a slot. */
  datatype Change = Assign(k: Key, v: Value) | Collect(i: nat)

  class Table {
    const h: Key -> nat
    var arr: array<Value>
    var sizearray: nat
    var node: array<Slot>
    var dummy: bool
    var lastfree: int
    ghost var chain: seq<int>
    ghost var rank: seq<int>
    ghost var slots: map<Key, nat>
    ghost var model: map<Key, int>

    /** Free slots are below `lastfree`; the shared empty node offers none. */
    ghost predicate FreeBelow()
      reads this, node
    {
      if dummy then node.Length == 1 && node[0] == EMPTY && lastfree <= 0
      else lastfree <= node.Length && forall i :: 0 <= i < node.Length && lastfree <= i ==> !node[i].sk.Free?
    }

    ghost predicate Nodes()
      reads this, node
    {
      && Sound(h, node[..], chain, rank) && Placed(node[..], slots)
      && PowerOfTwo(node.Length) && node.Length <= MAXASIZE && FreeBelow()
    }

    /** The invariant while the array part shrinks: the array still has the slots that are going away. */
    ghost predicate Core()
      reads this, node, arr
    {
      Nodes() && sizearray <= arr.Length && Faithful(arr[..], sizearray, node[..], slots, model)
    }

    ghost predicate Valid()
      reads this, node, arr
    {
      Core() && sizearray == arr.Length
    }

    /** Follows the links from the key's main position. */
    method Find(key: Key) returns (i: int)
      requires Nodes()
      ensures i == if key in slots then slots[key] else -1
    {
      ghost var s := node[..];
      i := MainPosition(h, key, node.Length);
      ghost var m := i;
      if key in slots {
        AtHome(h, s, chain, rank, slots[key]);
      }
      while node[i].sk != Live(key)
        invariant 0 <= i < node.Length && chain[i] == chain[m]
        invariant key in slots ==> chain[i] == chain[slots[key]] && rank[i] <= rank[slots[key]]
        decreases Top(rank) - rank[i]
      {
        StepUp(h, s, chain, rank, i);
        if key in slots {
          OnTheWay(h, s, chain, rank, i, slots[key]);
        }
        if node[i].next == -1 {
          return -1;
        }
        i := node[i].next;
      }
    }

    /** Looks a key up: integers of the array part directly, everything else in the node vector. */
    method Get(key: Key) returns (v: Value)
      requires Valid()
      ensures v == Lookup(model, key)
    {
      match key
      case Nil => v := NoValue;
      case Num(k) => v := GetNum(k);
      case NaN => v := GetNode(key);
      case Real(_) => v := GetNode(key);
      case Bool(_) => v := GetNode(key);
      case Str(_) => v := GetNode(key);
      case Ref(_) => v := GetNode(key);
    }

    method GetNum(k: Int) returns (v: Value)
      requires Valid()
      ensures v == Lookup(model, Num(k))
    {
      if (k - 1) % 0x1_0000_0000 < sizearray {
        v := arr[k - 1];
      } else {
        v := GetNode(Num(k));
      }
    }

    method GetNode(key: Key) returns (v: Value)
      requires Valid() && !InArray(key, sizearray)
      ensures v == Lookup(model, key)
    {
      var i := Find(key);
      v := if i == -1 then NoValue else node[i].val;
    }

    /** The next free slot below the last one handed out, or -1. */
    method GetFreePos() returns (n: int)
      requires FreeBelow()
      modifies this`lastfree
      ensures n == -1 ==> FreeBelow() && (dummy || forall i :: 0 <= i < node.Length ==> !node[i].sk.Free?)
      ensures n != -1 ==> 0 <= n < node.Length && node[n].sk.Free? && !dummy && lastfree == n
                          && forall i :: n < i < node.Length ==> !node[i].sk.Free?
    {
      while lastfree > 0
        invariant FreeBelow()
        decreases lastfree
      {
        lastfree := lastfree - 1;
        if node[lastfree].sk.Free? {
          return lastfree;
        }
      }
      lastfree := lastfree - 1;
      n := -1;
    }

    /** What a new key needs: it is not in the table, and may be. */
    ghost predicate New(key: Key)
      reads this
    {
      key !in slots && key !in model && key != Nil && key != NaN && !InArray(key, sizearray)
    }

    /** The invariant while the free slot `n` is handed out. */
    ghost predicate Granted(n: nat)
      reads this, node, arr
    {
      && Sound(h, node[..], chain, rank) && Placed(node[..], slots)
      && PowerOfTwo(node.Length) && node.Length <= MAXASIZE
      && !dummy && n < node.Length && node[n].sk.Free? && lastfree == n
      && (forall i :: n < i < node.Length ==> !node[i].sk.Free?)
      && sizearray <= arr.Length && Faithful(arr[..], sizearray, node[..], slots, model)
    }

    /** The main position has no value: the key takes it over, links and all. */
    method TakeSlot(key: Key, mp: nat)
      requires Core() && New(key) && !dummy && mp == MainPosition(h, key, node.Length) && node[mp].val == NoValue
      modifies node, this`slots
      ensures Core() && key in slots && slots[key] == mp && slots.Keys <= old(slots.Keys) + {key}
      ensures old(NoDead(node[..])) ==> NoDead(node[..])
    {
      hide Sound, Placed, Faithful, Absent, MainPosition, PowerOfTwo;
      ghost var s := node[..];
      KeyAbsent(s, slots, key);
      TakeOver(h, s, chain, rank, key);
      TakeOverPlaced(s, slots, mp, key);
      TakeOverFaithful(arr[..], sizearray, s, slots, model, mp, key);
      slots := Replaced(s, slots, mp, key);
      node[mp] := node[mp].(sk := Live(key));
      assert node[..] == s[mp := s[mp].(sk := Live(key))];
    }

    /** The colliding key is at home: the new key goes to the free slot, linked after it. */
    method LinkAfter(key: Key, mp: nat, n: nat)
      requires Granted(n) && New(key) && mp == MainPosition(h, key, node.Length)
      requires node[mp].sk.Live? && MainPosition(h, node[mp].sk.key, node.Length) == mp
      modifies node, this`slots, this`chain, this`rank
      ensures Core() && key in slots && slots[key] == n && slots.Keys <= old(slots.Keys) + {key}
      ensures old(NoDead(node[..])) ==> NoDead(node[..])
    {
      hide Sound, Placed, Faithful, Absent, MainPosition, PowerOfTwo, Doubled;
      ghost var s := node[..];
      KeyAbsent(s, slots, key);
      Append(h, s, chain, rank, n, key);
      AppendedFaithful(arr[..], sizearray, s, slots, model, mp, n, key);
      node[n] := Slot(Live(key), NoValue, node[mp].next);
      node[mp] := node[mp].(next := n);
      assert node[..] == Appended(s, mp, n, key);
      SoundSize(h, s, chain, rank);
      rank := Doubled(rank)[n := 2 * rank[mp] + 1];
      chain := chain[n := chain[mp]];
      slots := slots[key := n];
    }

    /** The slot that links to `mp`, starting from the main position of the key there. */
    method Previous(mp: nat, home: nat) returns (prev: nat)
      requires Sound(h, node[..], chain, rank) && mp < node.Length && node[mp].sk.Live?
      requires home == MainPosition(h, node[mp].sk.key, node.Length) != mp
      ensures prev < node.Length && node[prev].next == mp && prev != mp
    {
      prev := home;
      AtHome(h, node[..], chain, rank, mp);
      OnTheWay(h, node[..], chain, rank, home, mp);
      while node[prev].next != mp
        invariant prev < node.Length && prev != mp && chain[prev] == chain[mp] && rank[prev] <= rank[mp]
        decreases rank[mp] - rank[prev]
      {
        OnTheWay(h, node[..], chain, rank, prev, mp);
        StepUp(h, node[..], chain, rank, prev);
        prev := node[prev].next;
      }
    }

    /** The colliding key is away from home: it moves to the free slot and the new key gets its main position. */
    method MoveAway(key: Key, mp: nat, n: nat, home: nat)
      requires Granted(n) && New(key) && mp == MainPosition(h, key, node.Length)
      requires node[mp].sk.Live? && MainPosition(h, node[mp].sk.key, node.Length) == home != mp
      modifies node, this`slots, this`chain, this`rank
      ensures Core() && key in slots && slots[key] == mp && slots.Keys <= old(slots.Keys) + {key}
      ensures old(NoDead(node[..])) ==> NoDead(node[..])
    {
      hide Sound, Placed, Faithful, Absent, MainPosition, PowerOfTwo, Top, Moved, NoDead;
      ghost var s := node[..];
      var prev := Previous(mp, home);
      KeyAbsent(s, slots, key);
      NotLinked(h, s, chain, rank, n, prev);
      ghost var lone := Top(chain) + 1;
      assert forall i :: 0 <= i < |chain| ==> chain[i] < lone;
      Move(h, s, chain, rank, prev, n, key, lone);
      MovedPlaced(s, slots, prev, mp, n, key);
      MovedFaithful(arr[..], sizearray, s, slots, model, prev, mp, n, key);
      MovedParts(s, prev, mp, n, key);
      SoundSize(h, s, chain, rank);
      ghost var moved, slots' := Moved(s, prev, mp, n, key), slots[s[mp].sk.key := n][key := mp];
      ghost var chain', rank' := chain[n := chain[mp]][mp := lone], rank[n := rank[mp]];
      node[prev] := node[prev].(next := n);
      node[n] := node[mp];
      node[mp] := Slot(Live(key), NoValue, -1);
      assert node[..] == moved;
      slots, chain, rank := slots', chain', rank';
    }

    // ---- growing and shrinking

    method SetNodeVector(size: nat) returns (ok: bool)
      modifies this`node, this`dummy, this`lastfree, this`chain, this`rank, this`slots
      ensures ok <==> size <= MAXASIZE
      ensures ok ==> fresh(node) && Nodes() && slots == map[] && node.Length >= size && (dummy <==> size == 0)
                     && forall i :: 0 <= i < node.Length ==> node[i] == EMPTY
      ensures !ok ==> unchanged(this)
    {
      hide PowerOfTwo, Sound;
      NodeSize(size);
      if size == 0 {
        node := new Slot[1](_ => EMPTY);
        dummy, lastfree := true, 0;
      } else {
        var p := CeilPower(size);
        if p > MAXASIZE {
          return false;
        }
        node := new Slot[p](_ => EMPTY);
        dummy, lastfree := false, p;
      }
      ok := true;
      slots, chain, rank := map[], seq(node.Length, i => i), seq(node.Length, _ => 0);
      FreshSound(h, node[..], chain, rank);
    }

    method SetArrayVector(size: nat)
      requires sizearray <= arr.Length
      modifies this`arr, this`sizearray
      ensures fresh(arr) && arr.Length == sizearray == size
      ensures forall i :: 0 <= i < size ==> arr[i] == if i < old(sizearray) then old(arr[i]) else NoValue
    {
      var a := new Value[size](_ => NoValue);
      var n := if size < sizearray then size else sizearray;
      for i := 0 to n
        invariant arr == old(arr) && sizearray == old(sizearray)
        invariant forall j :: 0 <= j < size ==> a[j] == if j < i then arr[j] else NoValue
      {
        a[i] := arr[i];
      }
      arr, sizearray := a, size;
    }
  
    ghost predicate At(key: Key, at: Place)
      reads this
    {
      match at
      case InArrayPart(i) => InArray(key, sizearray) && i == key.k - 1
      case InNode(i) => !InArray(key, sizearray) && key in slots && i == slots[key]
    }

    /** A key that can get a slot without rehashing. */
    ghost predicate Room(key: Key)
      reads this, node
    {
      key in slots || InArray(key, sizearray) || (!dummy && HasFree(node[..]))
    }

    /** The slot for a key, new if the key has none: the node vector is rebuilt at most once, and then only if it is
        full. */
    method SetKey(key: Key, ghost depth: nat) returns (o: Outcome)
      requires Core() && (depth == 0 ==> Room(key)) && (depth > 0 ==> sizearray == arr.Length)
      modifies this, node, arr
      ensures o == NilIndex <==> key == Nil
      ensures o == NaNIndex <==> key == NaN
      ensures o == Overflow ==> depth > 0 && |old(model)| >= MAXASIZE
      ensures o != Overflow ==> Core() && model == old(model) && (depth > 0 ==> sizearray == arr.Length)
      ensures o.Ready? ==> At(key, o.at)
      ensures depth == 0 ==>
                node == old(node) && arr == old(arr) && sizearray == old(sizearray) && arr[..] == old(arr[..])
      ensures depth == 0 ==> dummy == old(dummy) && slots.Keys <= old(slots.Keys) + {key}
      ensures depth == 0 && old(NoDead(node[..])) ==> NoDead(node[..])
      ensures old(key in slots || InArray(key, sizearray)) && key != Nil && key != NaN ==>
                o.Ready? && node == old(node) && arr == old(arr) && sizearray == old(sizearray) && dummy == old(dummy)
                && node[..] == old(node[..]) && arr[..] == old(arr[..]) && slots == old(slots) && rank == old(rank)
                     && chain == old(chain)
      ensures (node == old(node) || fresh(node)) && (arr == old(arr) || fresh(arr))
      decreases depth, 3
    {
      if key.Num? && InArray(key, sizearray) {
        return Ready(InArrayPart(key.k - 1));
      }
      if key == Nil {
        return NilIndex;
      }
      var i := Find(key);
      if i != -1 {
        return Ready(InNode(i));
      }
      if key == NaN {
        return NaNIndex;
      }
      o := NewKey(key, depth);
    }

    method FreePosition() returns (n: int)
      requires Core()
      modifies this`lastfree
      ensures n == -1 ==> Core() && (dummy || !HasFree(node[..]))
      ensures n != -1 ==> 0 <= n && Granted(n) && !dummy
    {
      hide Sound, Placed, Faithful, PowerOfTwo;
      n := GetFreePos();
    }

    lemma MainSlot(key: Key)
      requires Core()
      ensures node.Length > 0
      ensures var mp := MainPosition(h, key, node.Length);
              (node[mp].val != NoValue ==> node[mp].sk.Live?)
                  && (dummy ==> node[mp].val == NoValue && node[mp].sk.Free?)
    {
      hide Placed, Faithful, PowerOfTwo;
      FullSlot(h, node[..], chain, rank, MainPosition(h, key, node.Length));
      assert node[..][MainPosition(h, key, node.Length)] == node[MainPosition(h, key, node.Length)];
    }

    method NewKey(key: Key, ghost depth: nat) returns (o: Outcome)
      requires Core() && New(key) && (depth == 0 ==> Room(key)) && (depth > 0 ==> sizearray == arr.Length)
      modifies this, node, arr
      ensures o == Overflow || (o.Ready? && Core() && model == old(model))
      ensures o == Overflow ==> depth > 0 && |old(model)| >= MAXASIZE
      ensures o.Ready? && depth > 0 ==> sizearray == arr.Length
      ensures o.Ready? ==> At(key, o.at)
      ensures depth == 0 ==>
                node == old(node) && arr == old(arr) && sizearray == old(sizearray) && arr[..] == old(arr[..])
      ensures depth == 0 ==> dummy == old(dummy) && slots.Keys <= old(slots.Keys) + {key}
      ensures depth == 0 && old(NoDead(node[..])) ==> NoDead(node[..])
      ensures (node == old(node) || fresh(node)) && (arr == old(arr) || fresh(arr))
      decreases depth, 2
    {
      hide Nodes, Granted, Faithful, MainPosition, NoDead, HasFree;
      MainSlot(key);
      var mp := MainPosition(h, key, node.Length);
      if node[mp].val != NoValue || dummy {
        var n := FreePosition();
        if n == -1 {
          var ok := Rehash(key, depth);
          if !ok {
            return Overflow;
          }
          o := SetKey(key, depth - 1);
          return;
        }
        var home := MainPosition(h, node[mp].sk.key, node.Length);
        if home != mp {
          MoveAway(key, mp, n, home);
          o := Ready(InNode(mp));
        } else {
          LinkAfter(key, mp, n);
          o := Ready(InNode(n));
        }
      } else {
        TakeSlot(key, mp);
        o := Ready(InNode(mp));
      }
    }
  
    /** Counts all keys with the new one, gives both parts their best sizes and moves every entry; the new key has
        room. */
    method Rehash(ek: Key, ghost depth: nat) returns (ok: bool)
      requires Valid() && New(ek) && depth > 0
      modifies this, node, arr
      ensures ok ==> Valid() && model == old(model) && Optimal(Candidates(model.Keys + {ek}), sizearray)
      ensures ok ==> Room(ek) && (InArray(ek, sizearray) || ek !in slots)
      ensures !ok ==> |old(model)| >= MAXASIZE
      ensures (node == old(node) || fresh(node)) && (arr == old(arr) || fresh(arr))
      decreases depth, 1
    {
      hide Nodes, Faithful, Out, Roomy, Room, Optimal, Candidates;
      var nasize, nhsize := CountKeys(ek);
      OutGrows(model.Keys, ek, nasize);
      ok := Resize(nasize, nhsize);
      if ok {
        RoomForExtra(ek, nhsize);
      }
    }

    lemma RoomForExtra(ek: Key, nhsize: nat)
      requires Core() && Roomy(model) && nhsize == |Out(model.Keys + {ek}, sizearray)| <= node.Length
      requires (dummy <==> nhsize == 0) && ek !in model
      ensures Room(ek) && (InArray(ek, sizearray) || ek !in slots)
    {
      hide Sound, Out;
      OutGrows(model.Keys, ek, sizearray);
      OutWithin(model.Keys, sizearray);
      if !InArray(ek, sizearray) {
        RoomFor(node[..], slots, Out(model.Keys + {ek}, sizearray), ek);
      }
    }

    /** Counts all keys and the new one, and finds the best size of the array part. */
    method CountKeys(ek: Key) returns (nasize: nat, nhsize: nat)
      requires Valid() && New(ek)
      ensures nasize <= MAXASIZE && Optimal(Candidates(model.Keys + {ek}), nasize)
      ensures nhsize == |Out(model.Keys + {ek}, nasize)|
    {
      hide Sound, Placed, Faithful, Counted, Candidates, ArrayInts, NodeKeys, Out, Optimal, Below, PowerOfTwo, OnlyLive;
      var nums := new nat[MAXBITS + 1](_ => 0);
      ghost var ai, nk := ArrayInts(arr[..], sizearray), NodeKeys(node[..], 0);
      LiveOnly(h, node[..], chain, rank);
      KeysSplit(arr[..], sizearray, node[..], slots, model);
      NothingCounted(nums[..]);
      FaithfulSize(arr[..], sizearray, node[..], slots, model);
      nasize := NumUseArray(arr, sizearray, nums);
      var totaluse := nasize;
      var used, ause := NumUseHash(node, nums, slots, ai);
      totaluse := totaluse + used;
      CandidatesAdd(model.Keys, ek);
      var extra := CountInt(ek, nums, Candidates(model.Keys));
      totaluse := totaluse + 1;
      var na;
      nasize, na := ComputeSizes(nums, nasize + ause + extra, Candidates(model.Keys + {ek}));
      OutCount(model.Keys + {ek}, nasize);
      nhsize := totaluse - na;
    }

    /** Stores a value for a key that has room, while the table is rebuilt. */
    method Reinsert(key: Key, v: Value)
      requires Core() && key != Nil && key != NaN && key !in model && v != NoValue && Room(key)
      modifies this, node, arr
      ensures Core() && model == old(model)[key := v.v]
      ensures node == old(node) && arr == old(arr) && sizearray == old(sizearray) && dummy == old(dummy)
      ensures slots.Keys <= old(slots.Keys) + {key} && (InArray(key, sizearray) ==> slots.Keys <= old(slots.Keys))
      ensures !InArray(key, sizearray) ==> arr[..] == old(arr[..])
      ensures old(NoDead(node[..])) ==> NoDead(node[..])
      decreases 0, 4, 0
    {
      var o := SetKey(key, 0);
      Write(key, o.at, v);
    }

    method Write(key: Key, at: Place, v: Value)
      requires Core() && At(key, at)
      modifies node, arr, this`model
      ensures Core() && model == Updated(old(model), key, v)
      ensures at.InArrayPart? ==> node[..] == old(node[..])
      ensures at.InNode? ==> arr[..] == old(arr[..])
      ensures SameKeys(old(node[..]), node[..])
      ensures old(NoDead(node[..])) ==> NoDead(node[..])
    {
      hide Sound, Placed, Faithful, MainPosition, PowerOfTwo;
      ghost var s := node[..];
      match at {
        case InArrayPart(i) =>
          ArrayFaithful(arr[..], sizearray, s, slots, model, i, v);
          ghost var a := arr[..];
          arr[i] := v;
          assert arr[..] == a[i := v];
          assert node[..] == s;
        case InNode(i) =>
          PlacedAt(s, slots, key);
          ValueSound(h, s, chain, rank, i, v);
          StoredFaithful(arr[..], sizearray, s, slots, model, key, v);
          node[i] := node[i].(val := v);
          assert node[..] == s[i := s[i].(val := v)];
      }
      model := Updated(model, key, v);
    }

    /** New, empty parts; of the entries, those in the array part that stay are there already. */
    method StartOver(nasize: nat, nhsize: nat) returns (ok: bool)
      requires Valid() && nasize <= MAXASIZE && |Out(model.Keys, nasize)| <= nhsize
      modifies this
      ensures ok <==> nhsize <= MAXASIZE
      ensures ok ==> Core() && fresh(node) && node.Length >= nhsize && (dummy <==> nhsize == 0) && sizearray == nasize
      ensures ok ==> model == Part(old(model), if old(sizearray) < nasize then old(sizearray) else nasize)
      ensures ok ==> Roomy(old(model))
      ensures ok ==> if old(sizearray) < nasize then fresh(arr) && arr.Length == nasize else arr == old(arr)
      ensures (node == old(node) || fresh(node)) && (arr == old(arr) || fresh(arr))
    {
      hide Sound, Placed, Faithful, PowerOfTwo, Out, Part;
      ghost var m, arr0, s0, slots0, was := model, arr[..], node[..], slots, sizearray;
      if nasize > sizearray {
        SetArrayVector(nasize);
      }
      ok := SetNodeVector(nhsize);
      if ok {
        sizearray := nasize;
        EmptyFaithful(arr0, was, nasize, s0, slots0, m, arr[..], node[..]);
        model := Part(m, if was < nasize then was else nasize);
      }
    }

    /** Rebuilds both parts with new sizes; every key that goes to the node vector has room there. */
    method Resize(nasize: nat, nhsize: nat) returns (ok: bool)
      requires Valid() && nasize <= MAXASIZE && |Out(model.Keys, nasize)| <= nhsize
      modifies this, node, arr
      ensures ok <==> nhsize <= MAXASIZE
      ensures ok ==> Valid() && model == old(model) && sizearray == nasize && fresh(node) && node.Length >= nhsize
      ensures ok ==> (dummy <==> nhsize == 0) && Roomy(model)
      ensures (node == old(node) || fresh(node)) && (arr == old(arr) || fresh(arr))
      decreases 0, 5
    {
      hide Sound, Placed, Faithful, PowerOfTwo, Out, Part, Roomy, NoDead, FreeBelow;
      ghost var m, slots0, was := model, slots, sizearray;
      var oldasize, nold := sizearray, node;
      ghost var s0 := nold[..];
      FaithfulHolding(h, chain, rank, arr[..], was, s0, slots0, m);
      FaithfulArray(arr[..], was, s0, slots0, m);
      ok := StartOver(nasize, nhsize);
      if !ok {
        return;
      }
      if nasize < oldasize {
        ReinsertSlice(oldasize, m);
        Shrink(m);
      }
      ReinsertNodes(nold, s0, m, slots0, oldasize);
    }

    /** Gives back the part of the array that is not used any more. */
    method Shrink(ghost m: map<Key, int>)
      requires Core() && Roomy(m)
      modifies this`arr, this`sizearray
      ensures Valid() && Roomy(m) && sizearray == old(sizearray) && fresh(arr)
    {
      hide Sound, Placed, PowerOfTwo, Out, NoDead;
      ghost var s := node[..];
      SetArrayVector(sizearray);
      assert node[..] == s;
    }

    /** Every key outside the array part has room. */
    ghost predicate Roomy(m: map<Key, int>)
      reads this, node
    {
      && NoDead(node[..]) && slots.Keys <= Out(m.Keys, sizearray)
      && |Out(m.Keys, sizearray)| <= node.Length && (dummy ==> Out(m.Keys, sizearray) == {})
    }

    lemma RoomInNodes(m: map<Key, int>, key: Key)
      requires Nodes() && Roomy(m) && key in m
      ensures Room(key)
    {
      hide Sound;
      if key !in slots && !InArray(key, sizearray) {
        assert key in Out(m.Keys, sizearray);
        RoomFor(node[..], slots, Out(m.Keys, sizearray), key);
      }
    }

    /** Moves the entries of the vanishing slice of the array part to the node vector. */
    method ReinsertSlice(oldasize: nat, ghost m: map<Key, int>)
      requires Core() && sizearray < oldasize <= arr.Length && oldasize <= MAXASIZE
      requires model == Part(m, sizearray) && Roomy(m)
      requires forall i :: 0 <= i < oldasize ==> arr[i] == Lookup(m, Num(i + 1))
      modifies this, node, arr
      ensures Core() && model == Part(m, oldasize) && Roomy(m)
      ensures node == old(node) && arr == old(arr) && sizearray == old(sizearray) && dummy == old(dummy)
      decreases 0, 4, 1
    {
      hide Nodes, Faithful, Out;
      for i := sizearray to oldasize
        invariant Core() && model == Part(m, i) && Roomy(m)
        invariant node == old(node) && arr == old(arr) && sizearray == old(sizearray) && dummy == old(dummy)
        invariant forall j :: 0 <= j < oldasize ==> arr[j] == Lookup(m, Num(j + 1))
      {
        PartNext(m, i);
        if arr[i] != NoValue {
          RoomInNodes(m, Num(i + 1));
          Reinsert(Num(i + 1), arr[i]);
          OutMember(m.Keys, sizearray, Num(i + 1));
        }
      }
    }

    /** Moves the entries of the old node vector, from its end, to wherever they go now. */
    method ReinsertNodes(nold: array<Slot>, ghost s: seq<Slot>, ghost m: map<Key, int>, ghost slots0: map<Key, nat>,
            ghost was: nat)
      requires Core() && nold != node && nold[..] == s && Roomy(m)
      requires Placed(s, slots0) && Holding(s, m, slots0, was) && model == Part(m, was)
      modifies this, node, arr
      ensures Core() && model == m && Roomy(m)
      ensures node == old(node) && arr == old(arr) && sizearray == old(sizearray) && dummy == old(dummy)
      decreases 0, 4, 1
    {
      hide Nodes, Faithful, Out, Placed;
      RestAll(s, m, slots0, was);
      for i := nold.Length downto 0
        invariant Core() && model == Rest(m, slots0, was, i) && Roomy(m)
        invariant node == old(node) && arr == old(arr) && sizearray == old(sizearray) && dummy == old(dummy)
        invariant nold[..] == s
      {
        RestNext(s, m, slots0, was, i);
        if nold[i].val != NoValue {
          RoomInNodes(m, nold[i].sk.key);
          Reinsert(nold[i].sk.key, nold[i].val);
          OutMember(m.Keys, sizearray, nold[i].sk.key);
        }
      }
    }
  
    // ---- the interface

    constructor (hash: Key -> nat, narray: nat, nhash: nat)
      requires narray <= MAXASIZE && nhash <= MAXASIZE
      ensures Valid() && model == map[] && h == hash && fresh(node) && fresh(arr)
    {
      h := hash;
      arr, sizearray := new Value[narray](_ => NoValue), narray;
      node, dummy, lastfree := new Slot[1](_ => EMPTY), true, 0;
      slots, chain, rank, model := map[], [0], [0], map[];
      new;
      var ok := SetNodeVector(nhash);
    }

    /** Assigns a value, or no value, to a key. */
    method Set(key: Key, v: Value) returns (o: Outcome)
      requires Valid()
      modifies this, node, arr
      ensures o == NilIndex <==> key == Nil
      ensures o == NaNIndex <==> key == NaN
      ensures o.Ready? ==> Valid() && model == Updated(old(model), key, v)
      ensures o == NilIndex || o == NaNIndex ==> Valid() && model == old(model)
      ensures o == Overflow ==> |old(model)| >= MAXASIZE
      ensures (node == old(node) || fresh(node)) && (arr == old(arr) || fresh(arr))
    {
      o := SetKey(key, 1);
      if o.Ready? {
        Write(key, o.at, v);
      }
    }

    /** Makes the array part larger. */
    method ResizeArray(nasize: nat)
      requires Valid() && sizearray <= nasize <= MAXASIZE
      modifies this, node, arr
      ensures Valid() && model == old(model) && sizearray == nasize
      ensures (node == old(node) || fresh(node)) && (arr == old(arr) || fresh(arr))
    {
      hide Sound, Placed;
      FitsAlready(nasize);
      var ok := Resize(nasize, if dummy then 0 else node.Length);
    }

    lemma FitsAlready(nasize: nat)
      requires Valid() && sizearray <= nasize <= MAXASIZE
      ensures |Out(model.Keys, nasize)| <= if dummy then 0 else node.Length
    {
      hide Sound, Faithful, NodeKeys;
      LiveOnly(h, node[..], chain, rank);
      KeysInNodes(arr[..], sizearray, node[..], slots, model);
      OutShrinks(model.Keys, sizearray, nasize);
      NodeKeysSize(node[..], 0);
      if dummy {
        assert node[..] == [EMPTY];
        EmptyNodes(node[..]);
      }
    }

    // ---- the length of a table used as a list

    ghost predicate Present(k: nat)
      reads this
    {
      k <= 0x7fff_ffff && Num(k) in model
    }

    ghost predicate Border(b: nat)
      reads this
    {
      (b == 0 || Present(b)) && b < 0x7fff_ffff && !Present(b + 1)
    }

    /** A border: zero or an index with a value, whose successor has none. */
    method GetN() returns (b: nat)
      requires Valid()
      ensures Border(b)
    {
      hide Nodes;
      var j: nat := sizearray;
      SizeBound();
      if j > 0 && arr[j - 1] == NoValue {
        var i: nat := 0;
        while j - i > 1
          invariant i < j <= sizearray && arr[j - 1] == NoValue && (i == 0 || arr[i - 1] != NoValue)
          decreases j - i
        {
          var m := (i + j) / 2;
          if arr[m - 1] == NoValue {
            j := m;
          } else {
            i := m;
          }
        }
        assert arr[j - 1] == Lookup(model, Num(j));
        assert i > 0 ==> arr[i - 1] == Lookup(model, Num(i));
        return i;
      } else if dummy {
        NothingInNodes(j);
        return j;
      } else {
        b := UnboundSearch(j);
      }
    }

    lemma SizeBound()
      requires Valid()
      ensures sizearray <= MAXASIZE && forall i :: 0 <= i < sizearray ==> arr[i] == Lookup(model, Num(i + 1))
    {
      hide Nodes;
    }

    lemma NothingInNodes(j: nat)
      requires Valid() && dummy && j == sizearray && (j > 0 ==> arr[j - 1] != NoValue)
      ensures Border(j)
    {
      hide Sound;
      assert j > 0 ==> arr[j - 1] == Lookup(model, Num(j));
      NoSlots(node[..], slots);
    }

    /** A border from `j0` up: doubling, then halving; or index by index if the doubling would overflow. */
    method UnboundSearch(j0: nat) returns (b: nat)
      requires Valid() && j0 <= MAXASIZE && (j0 == 0 || Present(j0))
      ensures Border(b)
    {
      hide Nodes, Valid;
      var i: nat, j: nat := j0, j0 + 1;
      var v := GetNum(j);
      while v != NoValue
        invariant i < j <= MAX_INT && (i == 0 || Present(i)) && (v != NoValue <==> Present(j))
        decreases MAX_INT - j
      {
        i := j;
        j := j * 2;
        assert j < 0x1_0000_0000;
        if j > MAX_INT {
          b := LinearSearch();
          return;
        }
        v := GetNum(j);
      }
      while j - i > 1
        invariant i < j <= MAX_INT && (i == 0 || Present(i)) && !Present(j)
        decreases j - i
      {
        assert i + j < 0x1_0000_0000;
        var m := (i + j) / 2;
        v := GetNum(m);
        if v == NoValue {
          j := m;
        } else {
          i := m;
        }
      }
      return i;
    }

    /** No index is reached that the table has not counted: the run of present indices is no longer than the table. */
    method LinearSearch() returns (b: nat)
      requires Valid()
      ensures Border(b)
    {
      hide Nodes, Valid;
      var i: nat := 1;
      RunBound(0);
      var v := GetNum(i);
      while v != NoValue
        invariant 0 < i <= 2 * MAXASIZE + 1 && (forall k :: 0 < k < i ==> Present(k)) && (v != NoValue <==> Present(i))
        decreases 2 * MAXASIZE + 1 - i
      {
        RunBound(i);
        i := i + 1;
        v := GetNum(i);
      }
      return i - 1;
    }

    lemma RunBound(n: nat)
      requires Valid() && forall k :: 0 < k <= n ==> Present(k)
      ensures n <= 2 * MAXASIZE
    {
      hide Sound, Faithful, NodeKeys;
      LiveOnly(h, node[..], chain, rank);
      KeysSplit(arr[..], sizearray, node[..], slots, model);
      FaithfulSize(arr[..], sizearray, node[..], slots, model);
      RangeSize(ArrayInts(arr[..], sizearray), sizearray);
      NodeKeysSize(node[..], 0);
      assert n > 0 ==> Present(n);
      forall k: nat | 0 < k <= n ensures Num(k) in model {
        assert Present(k);
      }
      RunSize(model, n);
    }

    // ---- traversal

    /** Where a key is met in a traversal: the array part first, then the node vector. */
    ghost predicate IndexOf(key: Key, i: int)
      reads this, node
    {
      IndexIn(node[..], rank, sizearray, key, i)
    }

    /** The position of a key: the slot that has it, live or dead, first in its chain. */
    method FindIndex(key: Key) returns (ok: bool, i: int)
      requires Valid()
      ensures key == Nil ==> ok && i == -1
      ensures ok && key != Nil ==> i >= 0 && IndexOf(key, i)
      ensures !ok ==> key != Nil && forall j :: !IndexOf(key, j)
    {
      if key == Nil {
        return true, -1;
      }
      if key.Num? && InArray(key, sizearray) {
        return true, key.k - 1;
      }
      ghost var s := node[..];
      var n := MainPosition(h, key, node.Length);
      AllAhead(h, s, chain, rank, key);
      while true
        invariant 0 <= n < node.Length && Ahead(s, chain, rank, key, n)
        decreases Top(rank) - rank[n]
      {
        if !node[n].sk.Free? && node[n].sk.key == key {
          FirstFound(h, s, chain, rank, key, n);
          return true, sizearray + n;
        }
        AheadStep(h, s, chain, rank, key, n);
        StepUp(h, s, chain, rank, n);
        if node[n].next == -1 {
          return false, 0;
        }
        n := node[n].next;
      }
    }

    /** The value at a position. */
    function ValueAt(i: nat): Value
      reads this, node, arr
      requires i < sizearray + node.Length && sizearray <= arr.Length
    {
      if i < sizearray then arr[i] else node[i - sizearray].val
    }

    /** Where a traversal stands: before everything, or at the position of a key. */
    ghost predicate Standing(key: Key, p: int)
      reads this, node
    {
      if key == Nil then p == -1 else p >= 0 && IndexOf(key, p)
    }

    ghost predicate NoneBetween(p: int, i: int)
      reads this, node, arr
      requires sizearray <= arr.Length
    {
      forall j :: 0 <= j < sizearray + node.Length && p < j < i ==> ValueAt(j) == NoValue
    }

    /** The next entry after a key, in the order of positions. */
    method Next(key: Key) returns (ok: bool, ghost p: int, i: int, k: Key, v: Value)
      requires Valid()
      ensures if ok then Standing(key, p) else key != Nil && forall j :: !IndexOf(key, j)
      ensures ok && v == NoValue ==> NoneBetween(p, sizearray + node.Length)
      ensures ok && v != NoValue ==> p < i < sizearray + node.Length && NoneBetween(p, i) && 0 <= i
      ensures ok && v != NoValue ==> IndexOf(k, i) && v == ValueAt(i) == Lookup(model, k) && k != Nil
    {
      hide Nodes, Faithful, FirstWith;
      k, v := Nil, NoValue;
      ok, i := FindIndex(key);
      p := i;
      if !ok {
        return;
      }
      SizeBound();
      i := i + 1;
      while i < sizearray
        invariant p < i && 0 <= i && NoneBetween(p, i)
      {
        if arr[i] != NoValue {
          k, v := Num(i + 1), arr[i];
          return;
        }
        i := i + 1;
      }
      while i - sizearray < node.Length
        invariant p < i && i >= sizearray && NoneBetween(p, i)
        decreases sizearray + node.Length - i
      {
        if node[i - sizearray].val != NoValue {
          ValueIndex(i);
          k, v := node[i - sizearray].sk.key, node[i - sizearray].val;
          return;
        }
        i := i + 1;
      }
    }

    /** A slot with a value is the first with its key. */
    lemma ValueIndex(i: nat)
      requires Valid() && sizearray <= i < sizearray + node.Length && node[i - sizearray].val != NoValue
      ensures node[i - sizearray].sk.Live? && IndexOf(node[i - sizearray].sk.key, i)
                && node[i - sizearray].sk.key != Nil
      ensures node[i - sizearray].val == Lookup(model, node[i - sizearray].sk.key)
    {
      hide MainPosition;
      LiveOnly(h, node[..], chain, rank);
      assert node[..][i - sizearray] == node[i - sizearray];
      LiveFirst(h, node[..], chain, rank, i - sizearray);
    }

    /** The collector's visit to a slot without a value: a collectable key is dead from then on. */
    method RemoveEntry(i: nat)
      requires Valid() && i < node.Length && node[i].sk.Live? && node[i].val == NoValue && Collectable(node[i].sk.key)
      modifies node, this`slots
      ensures Valid() && SameKeys(old(node[..]), node[..])
    {
      hide Sound, PowerOfTwo;
      ghost var s := node[..];
      DeadSound(h, s, chain, rank, i);
      DeadFaithful(arr[..], sizearray, s, slots, model, i);
      slots := slots - {node[i].sk.key};
      node[i] := node[i].(sk := Dead(node[i].sk.key));
      assert node[..] == s[i := s[i].(sk := Dead(s[i].sk.key))];
    }

    /** One change to an existing field, or one visit of the collector, between two steps of a traversal. */
    method Apply(change: Change)
      requires Valid()
      modifies this, node, arr
      ensures Valid() && model.Keys <= old(model.Keys)
      ensures node == old(node) && arr == old(arr) && sizearray == old(sizearray) && rank == old(rank)
      ensures SameKeys(old(node[..]), node[..])
    {
      hide Sound, Placed, Faithful, PowerOfTwo, FreeBelow;
      match change
      case Assign(k, v) =>
        var w := Get(k);
        if w != NoValue {
          HasPlace(k);
          NotNil(k);
          var o := SetKey(k, 1);
          Write(k, o.at, v);
        }
      case Collect(i) =>
        if i < node.Length && node[i].sk.Live? && node[i].val == NoValue && Collectable(node[i].sk.key) {
          RemoveEntry(i);
        }
    }

    lemma HasPlace(k: Key)
      requires Valid() && k in model
      ensures k in slots || InArray(k, sizearray)
    {
      hide Nodes;
    }

    lemma NotNil(k: Key)
      requires Core() && k in model
      ensures k != Nil && k != NaN
    {
      hide Nodes;
    }

    /** Visits the table with `Next`, from nothing to the end, while existing fields change and the collector runs:
        every entry that stays is visited once. */
    method Traverse(changes: seq<seq<Change>>) returns (visited: seq<Key>)
      requires Valid()
      modifies this, node, arr
      ensures Valid() && model.Keys <= old(model.Keys)
      ensures forall a, b :: 0 <= a < b < |visited| ==> visited[a] != visited[b]
      ensures forall k :: k in visited ==> k in old(model)
      ensures forall k :: k in model ==> k in visited
    {
      hide Valid, IndexIn;
      visited := [];
      var key, n := Nil, 0;
      ghost var p, places := -1, [];
      NothingCovered(node[..], rank, sizearray, model.Keys);
      while true
        invariant Valid() && model.Keys <= old(model.Keys) && node == old(node) && arr == old(arr)
        invariant Standing(key, p) && p < sizearray + node.Length
        invariant Trail(node[..], rank, sizearray, visited, places, p)
        invariant forall k :: k in visited ==> k in old(model)
        invariant Covered(node[..], rank, sizearray, model.Keys, visited, p)
        decreases sizearray + node.Length - p
      {
        var ok, i, k, v;
        ghost var q;
        ok, q, i, k, v := Next(key);
        StandingOnce(key, p, ok, q);
        SizeKept();
        if v == NoValue {
          AllVisited(p, visited);
          TrailDistinct(node[..], rank, sizearray, visited, places, p);
          return;
        }
        NextVisited(p, i, k, visited);
        TrailNext(node[..], rank, sizearray, visited, places, p, k, i);
        visited, places := visited + [k], places + [i];
        key, p := k, i;
        if n < |changes| {
          ChangeAll(changes[n], visited, places, key, p);
          n := n + 1;
        }
      }
    }

    method ChangeAll(changes: seq<Change>, ghost visited: seq<Key>, ghost places: seq<int>, ghost key: Key,
            ghost p: int)
      requires Valid() && Standing(key, p) && Trail(node[..], rank, sizearray, visited, places, p)
      requires Covered(node[..], rank, sizearray, model.Keys, visited, p)
      modifies this, node, arr
      ensures Valid() && model.Keys <= old(model.Keys) && node == old(node) && arr == old(arr)
                && sizearray == old(sizearray)
      ensures Standing(key, p) && Trail(node[..], rank, sizearray, visited, places, p)
      ensures Covered(node[..], rank, sizearray, model.Keys, visited, p)
    {
      hide Valid, IndexIn, Trail, Covered;
      for m := 0 to |changes|
        invariant Valid() && model.Keys <= old(model.Keys) && node == old(node) && arr == old(arr)
                    && sizearray == old(sizearray)
        invariant Standing(key, p) && Trail(node[..], rank, sizearray, visited, places, p)
        invariant Covered(node[..], rank, sizearray, model.Keys, visited, p)
      {
        ghost var s, keys := node[..], model.Keys;
        Apply(changes[m]);
        SameCovered(s, node[..], rank, sizearray, keys, model.Keys, visited, p);
        SameIndexes(s, node[..], rank, sizearray);
        SameTrail(s, node[..], rank, sizearray, visited, places, p);
      }
    }

    lemma SizeKept()
      requires Valid()
      ensures sizearray <= arr.Length
    {
      hide Nodes;
    }

    lemma StandingOnce(key: Key, p: int, ok: bool, q: int)
      requires Valid() && Standing(key, p) && if ok then Standing(key, q)
                                              else key != Nil && forall j :: !IndexOf(key, j)
      ensures ok && p == q
    {
      if key != Nil {
        assert IndexOf(key, p);
        if ok {
          IndexOnce(node[..], rank, sizearray, key, p, q);
        }
      }
    }

    /** An entry of the map has a position, and a value there. */
    lemma EntryIndex(k: Key) returns (j: nat)
      requires Valid() && k in model
      ensures j < sizearray + node.Length && IndexOf(k, j) && ValueAt(j) != NoValue
    {
      hide Sound, PowerOfTwo;
      if InArray(k, sizearray) {
        j := k.k - 1;
        assert arr[j] == Lookup(model, Num(j + 1));
      } else {
        j := sizearray + slots[k];
        assert node[..][slots[k]] == node[slots[k]];
        LiveFirst(h, node[..], chain, rank, slots[k]);
      }
    }

    lemma AllVisited(p: int, visited: seq<Key>)
      requires Valid() && sizearray <= arr.Length && NoneBetween(p, sizearray + node.Length)
      requires Covered(node[..], rank, sizearray, model.Keys, visited, p)
      ensures forall k :: k in model ==> k in visited
    {
      hide Valid, IndexIn;
      forall k | k in model ensures k in visited {
        var j := EntryIndex(k);
        assert j <= p;
      }
    }

    lemma NextVisited(p: int, i: int, key: Key, visited: seq<Key>)
      requires Valid() && sizearray <= arr.Length && NoneBetween(p, i) && IndexOf(key, i) && p < i
      requires Covered(node[..], rank, sizearray, model.Keys, visited, p)
      ensures Covered(node[..], rank, sizearray, model.Keys, visited + [key], i)
    {
      hide Valid, IndexIn;
      forall k, j | k in model.Keys && j <= i && IndexIn(node[..], rank, sizearray, k, j) ensures k in visited + [key] {
        var j0 := EntryIndex(k);
        IndexOnce(node[..], rank, sizearray, k, j, j0);
        if j == i {
          OneKeyThere(node[..], rank, sizearray, k, key, i);
        } else {
          assert j <= p;
        }
      }
    }
}
}
