/** Reading back what was written (ldump.cc, lundump.cc). */
module ChunkLoads {
  import opened Bytes
  import opened Chunk

  lemma BlockLoads(b: seq<Byte>, rest: seq<Byte>)
    ensures LoadBlock(b + rest, |b|) == Ok(b, rest)
  {
    assert (b + rest)[..|b|] == b && (b + rest)[|b|..] == rest;
  }

  lemma WordLoads(x: Word, rest: seq<Byte>)
    ensures LoadWord(IntBytes(x) + rest) == Ok(x, rest)
  {
    Pow256Values();
    LEUnLE(x, 4);
    BlockLoads(LE(x, 4), rest);
  }

  lemma LongLoads(x: Long, rest: seq<Byte>)
    ensures LoadLong(LE(x, 8) + rest) == Ok(x, rest)
  {
    Pow256Values();
    LEUnLE(x, 8);
    BlockLoads(LE(x, 8), rest);
  }

  lemma IntLoads(x: Count, rest: seq<Byte>)
    ensures LoadInt(IntBytes(x) + rest) == Ok(x, rest)
  {
    WordLoads(x, rest);
  }

  lemma ByteLoads(b: Byte, rest: seq<Byte>)
    ensures LoadByte([b] + rest) == Ok(b, rest)
  {
  }

  /** A string comes back, and the empty string is not the missing one. */
  lemma StringLoads(s: Str, rest: seq<Byte>)
    requires Short(s)
    ensures LoadString(StringBytes(s) + rest) == Ok(s, rest)
  {
    hide LoadLong, LoadBlock, LE;
    match s
    case Null => LongLoads(0, rest);
    case Text(text) =>
      var body := text + [0];
      assert StringBytes(s) + rest == SizeBytes(|text| + 1) + (body + rest);
      LongLoads(|text| + 1, body + rest);
      BlockLoads(body, rest);
      assert body[..|text|] == text;
  }

  lemma ConstLoads(c: Const, rest: seq<Byte>)
    requires ShortConst(c)
    ensures LoadConst(ConstBytes(c) + rest) == Ok(c, rest)
  {
    hide LoadLong, LoadString, LE, StringBytes;
    match c
    case KNil => ByteLoads(0, rest);
    case KBool(b) =>
      assert ConstBytes(c) + rest == [1] + ([if b then 1 else 0] + rest);
    case KNumber(n) =>
      assert ConstBytes(c) + rest == [3] + (LE(n, 8) + rest);
      LongLoads(n, rest);
    case KString(s) =>
      assert ConstBytes(c) + rest == [4] + (StringBytes(s) + rest);
      StringLoads(s, rest);
  }

  lemma LocVarLoads(v: LocVar, rest: seq<Byte>)
    requires Short(v.name)
    ensures LoadLocVar(LocVarBytes(v) + rest) == Ok(v, rest)
  {
    hide LoadInt, LoadString, LE, StringBytes, IntBytes;
    var r2 := IntBytes(v.endpc) + rest;
    var r1 := IntBytes(v.startpc) + r2;
    assert LocVarBytes(v) + rest == StringBytes(v.name) + r1;
    StringLoads(v.name, r1);
    IntLoads(v.startpc, r2);
    IntLoads(v.endpc, rest);
  }

  lemma {:induction false} WordsLoad(ws: seq<Word>, rest: seq<Byte>)
    ensures LoadWords(WordsBytes(ws) + rest, |ws|) == Ok(ws, rest)
  {
    hide LoadWord, IntBytes;
    if ws != [] {
      assert WordsBytes(ws) + rest == IntBytes(ws[0]) + (WordsBytes(ws[1..]) + rest);
      WordLoads(ws[0], WordsBytes(ws[1..]) + rest);
      WordsLoad(ws[1..], rest);
      assert [ws[0]] + ws[1..] == ws;
    } else {
      assert WordsBytes(ws) + rest == rest;
    }
  }

  lemma {:induction false} ConstsLoad(cs: seq<Const>, rest: seq<Byte>)
    requires forall i :: 0 <= i < |cs| ==> ShortConst(cs[i])
    ensures LoadConsts(ConstsBytes(cs) + rest, |cs|) == Ok(cs, rest)
  {
    hide LoadConst, ConstBytes;
    if cs != [] {
      assert ConstsBytes(cs) + rest == ConstBytes(cs[0]) + (ConstsBytes(cs[1..]) + rest);
      ConstLoads(cs[0], ConstsBytes(cs[1..]) + rest);
      ConstsLoad(cs[1..], rest);
      assert [cs[0]] + cs[1..] == cs;
    } else {
      assert ConstsBytes(cs) + rest == rest;
    }
  }

  lemma {:induction false} LocVarsLoad(vs: seq<LocVar>, rest: seq<Byte>)
    requires forall i :: 0 <= i < |vs| ==> Short(vs[i].name)
    ensures LoadLocVars(LocVarsBytes(vs) + rest, |vs|) == Ok(vs, rest)
  {
    hide LoadLocVar, LocVarBytes;
    if vs != [] {
      assert LocVarsBytes(vs) + rest == LocVarBytes(vs[0]) + (LocVarsBytes(vs[1..]) + rest);
      LocVarLoads(vs[0], LocVarsBytes(vs[1..]) + rest);
      LocVarsLoad(vs[1..], rest);
      assert [vs[0]] + vs[1..] == vs;
    } else {
      assert LocVarsBytes(vs) + rest == rest;
    }
  }

  lemma {:induction false} StringsLoad(ss: seq<Str>, rest: seq<Byte>)
    requires forall i :: 0 <= i < |ss| ==> Short(ss[i])
    ensures LoadStrings(StringsBytes(ss) + rest, |ss|) == Ok(ss, rest)
  {
    hide LoadString, StringBytes;
    if ss != [] {
      assert StringsBytes(ss) + rest == StringBytes(ss[0]) + (StringsBytes(ss[1..]) + rest);
      StringLoads(ss[0], StringsBytes(ss[1..]) + rest);
      StringsLoad(ss[1..], rest);
      assert [ss[0]] + ss[1..] == ss;
    } else {
      assert StringsBytes(ss) + rest == rest;
    }
  }

  // ---- functions

  /** What a function becomes: an elided or missing source turns into the parent's, and stripping drops the debug parts.
      `written` is the parent's source in the dumped tree, `read` in the loaded one. */
  function Restored(f: Proto, written: Str, read: Str, strip: bool): Proto
    decreases f
  {
    var source := if f.source == written || strip || f.source == Null then read else f.source;
    f.(source := source,
       p := seq(|f.p|, i requires 0 <= i < |f.p| => Restored(f.p[i], f.source, source, strip)),
       lineinfo := if strip then [] else f.lineinfo,
       locvars := if strip then [] else f.locvars,
       upvalues := if strip then [] else f.upvalues)
  }

  /** How many calls deep the tree nests. */
  function Height(f: Proto): nat
    decreases f, |f.p| + 2
  {
    1 + TallestFrom(f, 0)
  }

  function TallestFrom(f: Proto, i: nat): nat
    requires i <= |f.p|
    decreases f, |f.p| - i + 1
  {
    if i == |f.p| then 0
    else
      var a, b := Height(f.p[i]), TallestFrom(f, i + 1);
      if a > b then a else b
  }

  /** The code check accepts every function of the tree. */
  predicate AllGood(f: Proto, good: Proto -> bool)
    decreases f
  {
    good(f) && forall i :: 0 <= i < |f.p| ==> AllGood(f.p[i], good)
  }

  function Stripped(f: Proto, strip: bool): Debug {
    if strip then Debug([], [], []) else Debug(f.lineinfo, f.locvars, f.upvalues)
  }

  lemma CodeLoads(ws: seq<Word>, rest: seq<Byte>)
    requires |ws| < 0x8000_0000
    ensures LoadCode(IntBytes(|ws|) + WordsBytes(ws) + rest) == Ok(ws, rest)
  {
    hide LoadInt, LoadWords, IntBytes, WordsBytes;
    assert IntBytes(|ws|) + WordsBytes(ws) + rest == IntBytes(|ws|) + (WordsBytes(ws) + rest);
    IntLoads(|ws|, WordsBytes(ws) + rest);
    WordsLoad(ws, rest);
  }

  lemma ConstantsLoad(cs: seq<Const>, rest: seq<Byte>)
    requires |cs| < 0x8000_0000 && forall i :: 0 <= i < |cs| ==> ShortConst(cs[i])
    ensures LoadConstants(IntBytes(|cs|) + ConstsBytes(cs) + rest) == Ok(cs, rest)
  {
    hide LoadInt, LoadConsts, IntBytes, ConstsBytes;
    assert IntBytes(|cs|) + ConstsBytes(cs) + rest == IntBytes(|cs|) + (ConstsBytes(cs) + rest);
    IntLoads(|cs|, ConstsBytes(cs) + rest);
    ConstsLoad(cs, rest);
  }

  lemma DebugListsLoad(d: Debug, rest: seq<Byte>)
    requires |d.lineinfo| < 0x8000_0000 && |d.locvars| < 0x8000_0000 && |d.upvalues| < 0x8000_0000
    requires forall i :: 0 <= i < |d.locvars| ==> Short(d.locvars[i].name)
    requires forall i :: 0 <= i < |d.upvalues| ==> Short(d.upvalues[i])
    ensures LoadDebug(IntBytes(|d.lineinfo|) + WordsBytes(d.lineinfo)
              + (IntBytes(|d.locvars|) + LocVarsBytes(d.locvars))
                      + (IntBytes(|d.upvalues|) + StringsBytes(d.upvalues)) + rest) == Ok(d, rest)
  {
    hide LoadInt, LoadCode, LoadLocVars, LoadStrings, IntBytes, WordsBytes, LocVarsBytes, StringsBytes;
    var r4 := StringsBytes(d.upvalues) + rest;
    var r3 := IntBytes(|d.upvalues|) + r4;
    var r2 := LocVarsBytes(d.locvars) + r3;
    var r1 := IntBytes(|d.locvars|) + r2;
    assert IntBytes(|d.lineinfo|) + WordsBytes(d.lineinfo) + (IntBytes(|d.locvars|) + LocVarsBytes(d.locvars))
           + (IntBytes(|d.upvalues|) + StringsBytes(d.upvalues)) + rest
        == IntBytes(|d.lineinfo|) + WordsBytes(d.lineinfo) + r1;
    CodeLoads(d.lineinfo, r1);
    IntLoads(|d.locvars|, r2);
    LocVarsLoad(d.locvars, r3);
    IntLoads(|d.upvalues|, r4);
    StringsLoad(d.upvalues, rest);
  }

  lemma DebugLoads(f: Proto, strip: bool, rest: seq<Byte>)
    requires Sized(f)
    ensures LoadDebug(DebugBytes(f, strip) + rest) == Ok(Stripped(f, strip), rest)
  {
    hide LoadDebug, IntBytes;
    DebugListsLoad(Stripped(f, strip), rest);
    if strip {
      assert WordsBytes([]) == [] && LocVarsBytes([]) == [] && StringsBytes([]) == [];
      assert IntBytes(0) + [] + (IntBytes(0) + []) + (IntBytes(0) + []) == IntBytes(0) + IntBytes(0) + IntBytes(0);
    }
  }

  function HeadOf(f: Proto, source: Str): Head {
    Head(source, f.linedefined, f.lastlinedefined, f.nups, f.numparams, f.isVararg, f.maxstacksize)
  }

  lemma HeadLoads(f: Proto, written: Str, read: Str, strip: bool, rest: seq<Byte>)
    requires Sized(f)
    ensures LoadHead(HeadBytes(f, written, strip) + rest, read)
              == Ok(HeadOf(f, Restored(f, written, read, strip).source), rest)
  {
    hide LoadInt, LoadString, LoadBlock, IntBytes, StringBytes;
    var s := if f.source == written || strip then Null else f.source;
    var b := [f.nups, f.numparams, f.isVararg, f.maxstacksize];
    var r2 := IntBytes(f.lastlinedefined) + (b + rest);
    var r1 := IntBytes(f.linedefined) + r2;
    assert HeadBytes(f, written, strip) + rest == StringBytes(s) + r1;
    StringLoads(s, r1);
    IntLoads(f.linedefined, r2);
    IntLoads(f.lastlinedefined, b + rest);
    BlockLoads(b, rest);
  }

  /** The nested functions of a restored one, from the `i`-th on. */
  function RestoredFrom(f: Proto, i: nat, read: Str, strip: bool): seq<Proto>
    requires i <= |f.p|
    decreases |f.p| - i
  {
    if i == |f.p| then [] else [Restored(f.p[i], f.source, read, strip)] + RestoredFrom(f, i + 1, read, strip)
  }

  lemma {:induction false} RestoredNested(f: Proto, i: nat, read: Str, strip: bool)
    requires i <= |f.p|
    ensures |RestoredFrom(f, i, read, strip)| == |f.p| - i
    ensures forall j :: 0 <= j < |f.p| - i ==>
              RestoredFrom(f, i, read, strip)[j] == Restored(f.p[i + j], f.source, read, strip)
    decreases |f.p| - i
  {
    hide Restored;
    if i < |f.p| {
      RestoredNested(f, i + 1, read, strip);
      var r := RestoredFrom(f, i, read, strip);
      forall j | 0 <= j < |f.p| - i ensures r[j] == Restored(f.p[i + j], f.source, read, strip) {
        if j > 0 {
          assert r[j] == RestoredFrom(f, i + 1, read, strip)[j - 1];
        }
      }
    }
  }

  lemma RestoredParts(f: Proto, written: Str, read: Str, strip: bool)
    ensures var g := Restored(f, written, read, strip);
            g == Assembled(HeadOf(f, g.source), f.code, f.k, RestoredFrom(f, 0, g.source, strip), Stripped(f, strip))
  {
    var g := Restored(f, written, read, strip);
    RestoredNested(f, 0, g.source, strip);
    assert g.p == RestoredFrom(f, 0, g.source, strip);
  }

  /** Reading succeeds: the tree is not too deep, and every function passes the check. */
  predicate Accepted(f: Proto, written: Str, read: Str, strip: bool, depth: nat, good: Proto -> bool) {
    depth + Height(f) <= MAXCCALLS + 1 && AllGood(Restored(f, written, read, strip), good)
  }

  predicate AcceptedFrom(f: Proto, i: nat, read: Str, strip: bool, depth: nat, good: Proto -> bool)
    requires i <= |f.p|
  {
    forall j :: i <= j < |f.p| ==> Accepted(f.p[j], f.source, read, strip, depth + 1, good)
  }

  /** Reading what was written gives the restored function and leaves the rest, or stops at a limit or at the check. */
  predicate Loads<T(==)>(r: Loaded<T>, accepted: bool, value: T, rest: seq<Byte>) {
    if accepted then r == Ok(value, rest) else r.Err? && (r.why == TooDeep || r.why == BadCode)
  }

  lemma {:induction false} FunctionLoads(f: Proto, written: Str, read: Str, strip: bool, depth: nat,
          good: Proto -> bool, rest: seq<Byte>)
    requires Sized(f)
    ensures Loads(LoadFunction(FunctionBytes(f, written, strip) + rest, read, depth, good),
                  Accepted(f, written, read, strip, depth, good), Restored(f, written, read, strip), rest)
    decreases f, |f.p| + 1
  {
    hide HeadBytes, IntBytes, WordsBytes, ConstsBytes, DebugBytes, LoadHead, LoadCode, LoadConstants, LoadInt,
           LoadDebug, Sized,
      FunctionsBytes, LoadFunctions, RestoredFrom, Restored, Accepted, AcceptedFrom, Stripped;
    SizedLists(f);
    var g := Restored(f, written, read, strip);
    var r5 := DebugBytes(f, strip) + rest;
    var r4 := FunctionsBytes(f, 0, strip) + r5;
    var r3 := IntBytes(|f.p|) + r4;
    var r2 := IntBytes(|f.k|) + ConstsBytes(f.k) + r3;
    var r1 := IntBytes(|f.code|) + WordsBytes(f.code) + r2;
    assert FunctionBytes(f, written, strip) + rest == HeadBytes(f, written, strip) + r1;
    RestoredParts(f, written, read, strip);
    AcceptedParts(f, written, read, strip, depth, good);
    if depth <= MAXCCALLS {
      HeadLoads(f, written, read, strip, r1);
      CodeLoads(f.code, r2);
      ConstantsLoad(f.k, r3);
      IntLoads(|f.p|, r4);
      FunctionsLoad(f, 0, g.source, strip, depth, good, r5);
      DebugLoads(f, strip, rest);
    }
  }

  lemma SizedLists(f: Proto)
    requires Sized(f)
    ensures |f.code| < 0x8000_0000 && |f.k| < 0x8000_0000 && |f.p| < 0x8000_0000
    ensures forall i :: 0 <= i < |f.k| ==> ShortConst(f.k[i])
    ensures forall i :: 0 <= i < |f.p| ==> Sized(f.p[i])
  {
  }

  lemma {:induction false} FunctionsLoad(f: Proto, i: nat, read: Str, strip: bool, depth: nat, good: Proto -> bool,
          rest: seq<Byte>)
    requires Sized(f) && i <= |f.p| && depth <= MAXCCALLS
    ensures Loads(LoadFunctions(FunctionsBytes(f, i, strip) + rest, |f.p| - i, read, depth, good),
                  AcceptedFrom(f, i, read, strip, depth, good), RestoredFrom(f, i, read, strip), rest)
    decreases f, |f.p| - i
  {
    hide FunctionBytes, LoadFunction, Restored, Accepted, Sized;
    SizedLists(f);
    if i == |f.p| {
      assert FunctionsBytes(f, i, strip) + rest == rest;
    } else {
      var more := FunctionsBytes(f, i + 1, strip) + rest;
      assert FunctionsBytes(f, i, strip) + rest == FunctionBytes(f.p[i], f.source, strip) + more;
      FunctionLoads(f.p[i], f.source, read, strip, depth + 1, good, more);
      FunctionsLoad(f, i + 1, read, strip, depth, good, rest);
      assert AcceptedFrom(f, i, read, strip, depth, good)
        <==> Accepted(f.p[i], f.source, read, strip, depth + 1, good)
             && AcceptedFrom(f, i + 1, read, strip, depth, good);
    }
  }

  lemma {:induction false} TallestBound(f: Proto, i: nat, bound: int)
    requires i <= |f.p| && bound >= 0
    ensures TallestFrom(f, i) <= bound <==> forall j :: i <= j < |f.p| ==> Height(f.p[j]) <= bound
    decreases |f.p| - i
  {
    hide Height;
    if i < |f.p| {
      TallestBound(f, i + 1, bound);
    }
  }

  lemma AcceptedParts(f: Proto, written: Str, read: Str, strip: bool, depth: nat, good: Proto -> bool)
    ensures var g := Restored(f, written, read, strip);
            Accepted(f, written, read, strip, depth, good) <==>
              depth <= MAXCCALLS && AcceptedFrom(f, 0, g.source, strip, depth, good) && good(g)
  {
    hide Height;
    var g := Restored(f, written, read, strip);
    HeightIs(f);
    if depth <= MAXCCALLS {
      TallestBound(f, 0, MAXCCALLS - depth);
      forall j | 0 <= j < |f.p|
        ensures Accepted(f.p[j], f.source, g.source, strip, depth + 1, good) <==>
                Height(f.p[j]) <= MAXCCALLS - depth && AllGood(g.p[j], good)
      {
        assert g.p[j] == Restored(f.p[j], f.source, g.source, strip);
      }
    }
  }

  lemma HeightIs(f: Proto)
    ensures Height(f) == 1 + TallestFrom(f, 0)
  {
  }

  // ---- the round trip

  /** Every function of the tree has a source. */
  predicate AllSources(f: Proto)
    decreases f
  {
    f.source != Null && forall i :: 0 <= i < |f.p| ==> AllSources(f.p[i])
  }

  /** Without stripping the restored tree is the tree itself, exactly if every source is there: elided sources come back
      as the parent's, missing ones do not stay missing. */
  lemma {:induction false} RestoredSame(f: Proto, written: Str, read: Str)
    requires read != Null && (written == Null || written == read)
    ensures Restored(f, written, read, false) == f <==> AllSources(f)
    decreases f
  {
    hide AllSources;
    SourcesParts(f);
    var g := Restored(f, written, read, false);
    if f.source != Null {
      assert g.source == f.source;
      forall i | 0 <= i < |f.p| ensures g.p[i] == f.p[i] <==> AllSources(f.p[i]) {
        RestoredSame(f.p[i], f.source, f.source);
      }
      assert g == f <==> g.p == f.p;
    }
  }

  lemma SourcesParts(f: Proto)
    ensures AllSources(f) <==> f.source != Null && forall i :: 0 <= i < |f.p| ==> AllSources(f.p[i])
  {
  }

  /** Loading a dumped chunk gives back the same tree if and only if every function has a source, the nesting stays
      within the limit on C calls, and the code check accepts every function. */
  lemma RoundTrip(f: Proto, calls: nat, good: Proto -> bool)
    requires Sized(f)
    ensures LoadChunk(ChunkBytes(f, false), calls, good) == Ok(f, [])
            <==> AllSources(f) && calls + Height(f) <= MAXCCALLS && AllGood(f, good)
  {
    hide FunctionBytes, LoadFunction, Restored, AllSources, Height, AllGood, Sized;
    var body := FunctionBytes(f, Null, false);
    BlockLoads(HEADER, body);
    assert body + [] == body;
    FunctionLoads(f, Null, Text([61, 63]), false, calls + 1, good, []);
    RestoredSame(f, Null, Text([61, 63]));
  }

  /** Whatever is left out, a chunk loads as its restored tree or not at all; in particular a stripped one loads with
      the name "=?" for every source and without debug information. */
  lemma ChunkLoadsRestored(f: Proto, strip: bool, calls: nat, good: Proto -> bool)
    requires Sized(f)
    ensures Loads(LoadChunk(ChunkBytes(f, strip), calls, good),
              Accepted(f, Null, Text([61, 63]), strip, calls + 1, good),
                  Restored(f, Null, Text([61, 63]), strip), [])
  {
    hide FunctionBytes, LoadFunction, Restored, Accepted, Sized;
    var body := FunctionBytes(f, Null, strip);
    BlockLoads(HEADER, body);
    assert body + [] == body;
    FunctionLoads(f, Null, Text([61, 63]), strip, calls + 1, good, []);
  }
}
