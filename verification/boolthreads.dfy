/** Patch lists threaded through the offsets of the unfinished jumps (lcode.cc). */
module BoolThreads {
  import opened BoolVm
  import opened BoolCode
  import opened Numbers

  const NO_JUMP: int := -1

  /** Offset of a jump to `dest` stored at `pc`. */
  function Offset(pc: int, dest: int): int { dest - (pc + 1) }

  function Link(list: seq<int>, k: int): int
    requires 0 <= k < |list|
  {
    if k + 1 < |list| then Offset(list[k], list[k + 1]) else NO_JUMP
  }

  /** `list` is what following the offsets from `head` visits. */
  predicate Threads(code: seq<Instr>, head: int, list: seq<int>) {
    && Distinct(list)
    && head == (if list == [] then NO_JUMP else list[0])
    && (forall k :: 0 <= k < |list| ==> 0 <= list[k] < |code| && code[list[k]].Jmp?)
    && forall k :: 0 <= k < |list| ==> Linked(code, list, k)
  }

  predicate Linked(code: seq<Instr>, list: seq<int>, k: int)
    requires 0 <= k < |list|
  {
    0 <= list[k] < |code| && code[list[k]] == Jmp(Link(list, k))
  }

  predicate AlignedAt(code: seq<Instr>, model: seq<Instr>, i: int)
    requires 0 <= i < |code| == |model|
  {
    if model[i].Jmp? then code[i].Jmp? && (model[i].dest != PENDING ==> code[i] == Jmp(Offset(i, model[i].dest)))
    else code[i] == model[i]
  }

  /** `code` stores offsets where `model` has destinations; a pending jump holds any link. */
  predicate Aligned(code: seq<Instr>, model: seq<Instr>) {
    |code| == |model| && forall i :: 0 <= i < |code| ==> AlignedAt(code, model, i)
  }

  lemma SameLength(code: seq<Instr>, model: seq<Instr>)
    requires Aligned(code, model)
    ensures |code| == |model|
  {
  }

  lemma ListDistinct(code: seq<Instr>, head: int, list: seq<int>)
    requires Threads(code, head, list)
    ensures Distinct(list)
  {
  }

  lemma ThreadsTail(code: seq<Instr>, head: int, list: seq<int>)
    requires Threads(code, head, list) && list != []
    ensures Threads(code, if |list| == 1 then NO_JUMP else list[1], list[1..])
    ensures head !in list[1..]
  {
    var rest := list[1..];
    forall k | 0 <= k < |rest| ensures Linked(code, rest, k) {
      assert rest[k] == list[k + 1] && Linked(code, list, k + 1);
    }
  }

  /** Changing code elsewhere leaves a list as it is. */
  lemma ThreadsKeep(before: seq<Instr>, after: seq<Instr>, head: int, list: seq<int>)
    requires Threads(before, head, list) && |before| <= |after|
    requires forall i :: 0 <= i < |before| && i in list ==> after[i] == before[i]
    ensures Threads(after, head, list)
  {
    forall k | 0 <= k < |list| ensures Linked(after, list, k) {
      assert Linked(before, list, k);
      assert list[k] in list;
    }
  }

  lemma ControlAligned(code: seq<Instr>, model: seq<Instr>, j: int)
    requires Aligned(code, model) && 0 <= j < |code| && code[j].Jmp?
    ensures Carries(code, j) == Carries(model, j)
    ensures code[Control(code, j)].TestSet? <==> Carries(model, j)
    ensures Carries(model, j) ==> Control(code, j) == j - 1
  {
    if j > 0 {
      assert AlignedAt(code, model, j - 1);
    }
  }

  lemma ListJumps(code: seq<Instr>, model: seq<Instr>, head: int, list: seq<int>, j: int)
    requires Threads(code, head, list) && Aligned(code, model) && j in list
    ensures 0 <= j < |code| && code[j].Jmp? && model[j].Jmp?
  {
    var k :| 0 <= k < |list| && list[k] == j;
    assert Linked(code, list, k);
    assert AlignedAt(code, model, j);
  }

  /** One more jump of a list patched. */
  lemma PatchOne(before: seq<Instr>, after: seq<Instr>, model: seq<Instr>, done: seq<int>, j: int,
                 vtarget: int, reg: int, dtarget: int)
    requires Aligned(before, Patch(model, done, vtarget, reg, dtarget))
    requires 0 <= j < |before| && before[j].Jmp? && j !in done
    requires forall d :: d in done ==> 0 <= d < |model| && model[d].Jmp?
    requires vtarget != PENDING && (Carries(before, j) || dtarget != PENDING)
    requires var carries := Carries(before, j);
             after == (if carries then before[j - 1 := Settle(before[j - 1], reg)] else before)
                      [j := Jmp(Offset(j, if carries then vtarget else dtarget))]
    ensures Aligned(after, Patch(model, done + [j], vtarget, reg, dtarget))
  {
    var prior := Patch(model, done, vtarget, reg, dtarget);
    var goal := Patch(model, done + [j], vtarget, reg, dtarget);
    forall i | 0 <= i < |after| ensures AlignedAt(after, goal, i) {
      assert AlignedAt(before, prior, i);
      assert prior[i] == PatchedAt(model, done, vtarget, reg, dtarget, i);
      assert goal[i] == PatchedAt(model, done + [j], vtarget, reg, dtarget, i);
      if i == j && j > 0 {
        assert AlignedAt(before, prior, j - 1);
        assert prior[j - 1] == PatchedAt(model, done, vtarget, reg, dtarget, j - 1);
      }
    }
  }

  /** Part of a list is patched, the rest is still threaded from `cur`. */
  ghost predicate Patching(start: seq<Instr>, code: seq<Instr>, model: seq<Instr>, list: seq<int>, n: int, cur: int,
                           vtarget: int, reg: int, dtarget: int)
  {
    && 0 <= n <= |list| && |code| == |start|
    && Threads(code, cur, list[n..])
    && Aligned(code, Patch(model, list[..n], vtarget, reg, dtarget))
    && JumpsKept(start, code, list)
  }

  ghost predicate JumpsKept(before: seq<Instr>, after: seq<Instr>, list: seq<int>) {
    |before| <= |after| && forall i :: 0 <= i < |before| && before[i].Jmp? && i !in list ==> after[i] == before[i]
  }

  /** The rest of a list stays threaded when its first jump is patched. */
  lemma RestKept(before: seq<Instr>, after: seq<Instr>, cur: int, rest: seq<int>, reg: int, dest: int)
    requires Threads(before, cur, rest) && rest != [] && 0 <= cur < |before|
    requires after == (if Carries(before, cur) then before[cur - 1 := Settle(before[cur - 1], reg)]
               else before)[cur := Jmp(dest)]
    ensures Threads(after, if |rest| == 1 then NO_JUMP else rest[1], rest[1..])
    ensures JumpsKept(before, after, [cur])
  {
    ThreadsTail(before, cur, rest);
    forall i | 0 <= i < |before| && i in rest[1..] ensures after[i] == before[i] {
      var k :| 0 <= k < |rest[1..]| && rest[1..][k] == i;
      assert Linked(before, rest[1..], k);
    }
    ThreadsKeep(before, after, if |rest| == 1 then NO_JUMP else rest[1], rest[1..]);
  }

  lemma PatchingAt(start: seq<Instr>, code: seq<Instr>, model: seq<Instr>, list: seq<int>, n: int, cur: int,
                   vtarget: int, reg: int, dtarget: int)
    requires Patching(start, code, model, list, n, cur, vtarget, reg, dtarget)
    ensures 0 <= n <= |list| && Threads(code, cur, list[n..]) && |code| == |start| && (cur == NO_JUMP <==> n == |list|)
    ensures n < |list| ==> cur == list[n] && 0 <= cur < |code| && code[cur].Jmp?
    ensures n == |list| ==> Aligned(code, Patch(model, list, vtarget, reg, dtarget)) && JumpsKept(start, code, list)
  {
    if n < |list| {
      assert list[n..][0] == list[n];
      assert Linked(code, list[n..], 0);
    } else {
      assert list[..n] == list;
    }
  }

  lemma PatchStart(code: seq<Instr>, model: seq<Instr>, head: int, list: seq<int>, vtarget: int, reg: int, dtarget: int)
    requires Threads(code, head, list) && Aligned(code, model)
    ensures Patching(code, code, model, list, 0, head, vtarget, reg, dtarget)
  {
    assert Patch(model, list[..0], vtarget, reg, dtarget) == model && list[0..] == list;
  }

  lemma PatchStep(start: seq<Instr>, before: seq<Instr>, after: seq<Instr>, model: seq<Instr>, list: seq<int>, n: int,
                  cur: int, vtarget: int, reg: int, dtarget: int)
    requires Distinct(list) && forall d :: d in list ==> 0 <= d < |model| && model[d].Jmp?
    requires Patching(start, before, model, list, n, cur, vtarget, reg, dtarget) && n < |list|
    requires vtarget != PENDING && (dtarget == PENDING ==> forall j :: j in list ==> Carries(model, j))
    requires 0 <= cur < |before|
    requires before[cur].Jmp? ==>
               var carries := Carries(before, cur);
               after == (if carries then before[cur - 1 := Settle(before[cur - 1], reg)] else before)
                        [cur := Jmp(Offset(cur, if carries then vtarget else dtarget))]
    ensures Patching(start, after, model, list, n + 1, if n + 1 == |list| then NO_JUMP
                                                       else list[n + 1], vtarget, reg, dtarget)
  {
    var rest := list[n..];
    assert rest[1..] == list[n + 1..] && cur == rest[0] == list[n];
    assert Linked(before, rest, 0);
    assert list[..n + 1] == list[..n] + [cur];
    RestKept(before, after, cur, rest, reg, Offset(cur, if Carries(before, cur) then vtarget else dtarget));
    assert forall d :: d in list[..n] ==> d in list;
    CarriesStill(before, model, list[..n], cur, vtarget, reg, dtarget);
    assert cur in list;
    PatchOne(before, after, model, list[..n], cur, vtarget, reg, dtarget);
  }

  /** A jump not yet patched still carries what it carried. */
  lemma CarriesStill(before: seq<Instr>, model: seq<Instr>, done: seq<int>, j: int, vtarget: int, reg: int,
          dtarget: int)
    requires Aligned(before, Patch(model, done, vtarget, reg, dtarget)) && 0 <= j < |before| && before[j].Jmp?
               && j !in done
    requires forall d :: d in done ==> 0 <= d < |model| && model[d].Jmp?
    ensures Carries(before, j) == Carries(model, j)
  {
    var prior := Patch(model, done, vtarget, reg, dtarget);
    ControlAligned(before, prior, j);
    if j > 0 {
      assert prior[j - 1] == PatchedAt(model, done, vtarget, reg, dtarget, j - 1);
    }
  }

  lemma AlignedAppend(code: seq<Instr>, model: seq<Instr>, ins: Instr)
    requires Aligned(code, model) && (ins.Jmp? ==> ins.dest == PENDING)
    ensures Aligned(code + [ins], model + [ins])
  {
    forall i | 0 <= i < |code| + 1 ensures AlignedAt(code + [ins], model + [ins], i) {
      assert i < |code| ==> AlignedAt(code, model, i);
    }
  }

  lemma AlignedLink(before: seq<Instr>, after: seq<Instr>, model: seq<Instr>, j: int, link: int)
    requires Aligned(before, model) && 0 <= j < |model| && model[j] == Jmp(PENDING) && after == before[j := Jmp(link)]
    ensures Aligned(after, model)
  {
    forall i | 0 <= i < |after| ensures AlignedAt(after, model, i) {
      assert AlignedAt(before, model, i);
    }
  }

  lemma {:induction false} ThreadsDrop(code: seq<Instr>, head: int, list: seq<int>, n: int)
    requires Threads(code, head, list) && 0 <= n < |list|
    ensures Threads(code, list[n], list[n..])
  {
    var rest := list[n..];
    forall k | 0 <= k < |rest| ensures Linked(code, rest, k) {
      assert Linked(code, list, n + k);
    }
  }

  lemma ConcatThreads(before: seq<Instr>, after: seq<Instr>, head: int, tail: int, first: seq<int>, second: seq<int>)
    requires Threads(before, head, first) && Threads(before, tail, second) && first != [] && second != []
    requires forall j :: j in first ==> j !in second
    requires var last := first[|first| - 1]; after == before[last := Jmp(Offset(last, tail))]
    ensures Threads(after, head, first + second)
    ensures JumpsKept(before, after, first)
  {
    var both := first + second;
    forall a, b | 0 <= a < b < |both| ensures both[a] != both[b] {
      if a < |first| <= b {
        assert first[a] in first && second[b - |first|] in second;
      }
    }
    forall k | 0 <= k < |both| ensures Linked(after, both, k) {
      if k < |first| {
        assert Linked(before, first, k);
      } else {
        assert Linked(before, second, k - |first|);
        assert first[|first| - 1] in first && second[k - |first|] in second;
      }
    }
  }

  /** Part of a list has lost its values. */
  ghost predicate Stripping(start: seq<Instr>, code: seq<Instr>, model: seq<Instr>, list: seq<int>, n: int, cur: int) {
    && 0 <= n <= |list| && |code| == |start|
    && Threads(code, cur, list[n..])
    && Aligned(code, BoolCode.RemoveValues(model, list[..n]))
    && JumpsKept(start, code, [])
  }

  lemma StripOne(before: seq<Instr>, after: seq<Instr>, model: seq<Instr>, done: seq<int>, j: int)
    requires Aligned(before, BoolCode.RemoveValues(model, done))
    requires 0 <= j < |before| && before[j].Jmp?
    requires after == if Carries(before, j) then before[j - 1 := Settle(before[j - 1], NO_REG)] else before
    ensures Aligned(after, BoolCode.RemoveValues(model, done + [j]))
  {
    var prior := BoolCode.RemoveValues(model, done);
    var goal := BoolCode.RemoveValues(model, done + [j]);
    forall i | 0 <= i < |after| ensures AlignedAt(after, goal, i) {
      assert AlignedAt(before, prior, i);
      assert prior[i] == StrippedAt(model, done, i);
      assert goal[i] == StrippedAt(model, done + [j], i);
    }
  }

  lemma StripStep(start: seq<Instr>, before: seq<Instr>, after: seq<Instr>, model: seq<Instr>, list: seq<int>, n: int,
          cur: int)
    requires Stripping(start, before, model, list, n, cur) && n < |list|
    requires 0 <= cur < |before|
    requires before[cur].Jmp? ==>
               after == if Carries(before, cur) then before[cur - 1 := Settle(before[cur - 1], NO_REG)] else before
    ensures Stripping(start, after, model, list, n + 1, if n + 1 == |list| then NO_JUMP else list[n + 1])
  {
    var rest := list[n..];
    var next := if n + 1 == |list| then NO_JUMP else list[n + 1];
    assert rest[1..] == list[n + 1..] && cur == rest[0] == list[n];
    assert Linked(before, rest, 0);
    assert list[..n + 1] == list[..n] + [cur];
    StripOne(before, after, model, list[..n], cur);
    ThreadsTail(before, cur, rest);
    forall i | 0 <= i < |before| && i in rest[1..] ensures after[i] == before[i] {
      var k :| 0 <= k < |rest[1..]| && rest[1..][k] == i;
      assert Linked(before, rest[1..], k);
    }
    ThreadsKeep(before, after, next, list[n + 1..]);
  }

  lemma StripNone(model: seq<Instr>)
    ensures BoolCode.RemoveValues(model, []) == model
  {
  }
}
