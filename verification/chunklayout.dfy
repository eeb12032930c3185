/** The layout of a dump, byte by byte, on one function with a part of every kind (ldump.cc). */
module ChunkLayout {
  import opened Bytes
  import opened Chunk

  /** Small numbers in four and eight bytes. */
  lemma Small(x: nat)
    requires x < 256
    ensures LE(x, 4) == [x, 0, 0, 0] && LE(x, 8) == [x, 0, 0, 0, 0, 0, 0, 0]
  {
    ZeroBytes();
    assert LE(x, 4) == [x] + LE(0, 3) && LE(x, 8) == [x] + LE(0, 7);
  }

  lemma ZeroBytes()
    ensures LE(0, 3) == [0, 0, 0] && LE(0, 7) == [0, 0, 0, 0, 0, 0, 0]
  {
    assert LE(0, 2) == [0, 0] && LE(0, 4) == [0, 0, 0, 0] && LE(0, 6) == [0, 0, 0, 0, 0, 0];
  }

  /** Source, lines, the four byte fields. */
  lemma HeadLayout(f: Proto, s: Byte, a: Byte, b: Byte)
    requires Sized(f) && f.source == Text([s]) && f.linedefined == a && f.lastlinedefined == b
    ensures HeadBytes(f, Null, false) == [2, 0, 0, 0, 0, 0, 0, 0, s, 0, a, 0, 0, 0, b, 0, 0, 0,
                                          f.nups, f.numparams, f.isVararg, f.maxstacksize]
    ensures HeadBytes(f, Text([s]), false) == [0, 0, 0, 0, 0, 0, 0, 0, a, 0, 0, 0, b, 0, 0, 0,
                                               f.nups, f.numparams, f.isVararg, f.maxstacksize]
  {
    hide LE, Sized;
    Small(0);
    Small(2);
    Small(a);
    Small(b);
  }

  lemma ConstsCons(c: Const, cs: seq<Const>)
    requires ShortConst(c) && forall i :: 0 <= i < |cs| ==> ShortConst(cs[i])
    ensures ConstsBytes([c] + cs) == ConstBytes(c) + ConstsBytes(cs)
  {
    assert ([c] + cs)[1..] == cs;
  }

  /** A constant of every kind, behind its tag. */
  lemma ConstantsLayout(n: Byte, s: Byte)
    ensures ConstsBytes([KNil] + ([KBool(true)] + ([KNumber(n)] + ([KString(Text([s]))] + []))))
            == [0] + [1, 1] + [3, n, 0, 0, 0, 0, 0, 0, 0] + [4, 2, 0, 0, 0, 0, 0, 0, 0, s, 0]
  {
    hide LE, ConstsBytes;
    Small(n);
    Small(2);
    var text := KString(Text([s]));
    ConstsCons(text, []);
    ConstsCons(KNumber(n), [text] + []);
    ConstsCons(KBool(true), [KNumber(n)] + ([text] + []));
    ConstsCons(KNil, [KBool(true)] + ([KNumber(n)] + ([text] + [])));
    NoConsts();
    assert ConstBytes(text) == [4, 2, 0, 0, 0, 0, 0, 0, 0, s, 0];
    assert ConstBytes(KNumber(n)) == [3, n, 0, 0, 0, 0, 0, 0, 0];
  }

  lemma NoConsts()
    ensures ConstsBytes([]) == []
  {
  }

  lemma OneOfEach(w: Word, v: LocVar, u: Str)
    requires Short(v.name) && Short(u)
    ensures WordsBytes([w]) == LE(w, 4) && LocVarsBytes([v]) == LocVarBytes(v) && StringsBytes([u]) == StringBytes(u)
  {
    hide LE, StringBytes, LocVarBytes;
    assert [w][1..] == [] && [v][1..] == [] && [u][1..] == [];
  }

  /** Line numbers, then local variables with their ranges, then the names of upvalues. */
  lemma DebugLayout(f: Proto, n: Byte, s: Byte, a: Byte, b: Byte, u: Byte)
    requires Sized(f) && f.lineinfo == [n] && f.locvars == [LocVar(Text([s]), a, b)] && f.upvalues == [Text([u])]
    ensures DebugBytes(f, false)
            == [1, 0, 0, 0] + [n, 0, 0, 0]
                + ([1, 0, 0, 0] + [2, 0, 0, 0, 0, 0, 0, 0, s, 0, a, 0, 0, 0, b, 0, 0, 0])
                + ([1, 0, 0, 0] + [2, 0, 0, 0, 0, 0, 0, 0, u, 0])
    ensures DebugBytes(f, true) == [0, 0, 0, 0, 0, 0, 0, 0, 0, 0, 0, 0]
  {
    hide LE, Sized, WordsBytes, LocVarsBytes, StringsBytes;
    Small(0);
    Small(1);
    Small(2);
    Small(n);
    Small(a);
    Small(b);
    OneOfEach(n, f.locvars[0], f.upvalues[0]);
    assert LocVarBytes(f.locvars[0]) == [2, 0, 0, 0, 0, 0, 0, 0, s, 0, a, 0, 0, 0, b, 0, 0, 0];
    assert StringBytes(f.upvalues[0]) == [2, 0, 0, 0, 0, 0, 0, 0, u, 0];
  }

  /** Header, head, code, constants, nested functions, debug information: in this order, each list behind its length. */
  lemma Layout(f: Proto, w: Byte, n: Byte)
    requires Sized(f) && f.code == [w] && f.k == [KNumber(n)] && |f.p| == 1
    ensures ChunkBytes(f, false)
            == [27, 76, 117, 97, 81, 0, 1, 4, 8, 4, 8, 0]
                + (HeadBytes(f, Null, false) + ([1, 0, 0, 0] + [w, 0, 0, 0])
                   + ([1, 0, 0, 0] + [3, n, 0, 0, 0, 0, 0, 0, 0])
                   + ([1, 0, 0, 0] + FunctionBytes(f.p[0], f.source, false)) + DebugBytes(f, false))
  {
    hide LE, Sized, HeadBytes, ConstsBytes, WordsBytes, DebugBytes, FunctionsBytes;
    Small(1);
    Small(w);
    Small(n);
    OneOfEach(w, LocVar(Null, 0, 0), Null);
    NoConsts();
    ConstsCons(KNumber(n), []);
    assert [KNumber(n)] + [] == f.k;
    assert ConstsBytes(f.k) == [3, n, 0, 0, 0, 0, 0, 0, 0];
    OneNested(f);
  }

  lemma OneNested(f: Proto)
    requires Sized(f) && |f.p| == 1
    ensures Sized(f.p[0]) && FunctionsBytes(f, 0, false) == FunctionBytes(f.p[0], f.source, false)
  {
    hide FunctionBytes;
    assert FunctionsBytes(f, 1, false) == [];
  }
}
