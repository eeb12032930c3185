/** The dumper as the C code runs it: blocks handed to a writer until it fails (ldump.cc). */
module ChunkDumper {
  import opened Bytes
  import opened Chunk

  /** What a stretch of the dump has done, from `out0` and `status0` to `out` and `status`: all its bytes handed over,
      or those up to the block on which the writer failed, and nothing once it has failed. */
  predicate Wrote(out0: seq<Byte>, status0: int, out: seq<Byte>, status: int, bytes: seq<Byte>) {
    if status0 != 0 then out == out0 && status == status0
    else if status == 0 then out == out0 + bytes
    else out0 <= out <= out0 + bytes
  }

  lemma WroteBoth(out0: seq<Byte>, status0: int, out1: seq<Byte>, status1: int, out: seq<Byte>, status: int,
                  first: seq<Byte>, second: seq<Byte>)
    requires Wrote(out0, status0, out1, status1, first) && Wrote(out1, status1, out, status, second)
    ensures Wrote(out0, status0, out, status, first + second)
  {
    assert out0 + (first + second) == (out0 + first) + second;
  }

  class Dumper {
    /** The writer's answer, from what it has been given before and the block. */
    const writer: (seq<Byte>, seq<Byte>) -> int
    const strip: bool
    var status: int
    /** Everything handed to the writer, the block on which it failed included. */
    var output: seq<Byte>

    /** A failure is the writer's own, on the last block it was given. */
    ghost predicate Valid()
      reads this
    {
      status != 0 ==> exists n: nat :: n <= |output| && writer(output[..n], output[n..]) == status
    }

    constructor (writer: (seq<Byte>, seq<Byte>) -> int, strip: bool)
      ensures this.writer == writer && this.strip == strip && status == 0 && output == [] && Valid()
    {
      this.writer, this.strip, status, output := writer, strip, 0, [];
    }

    method DumpBlock(b: seq<Byte>)
      requires Valid()
      modifies this
      ensures Valid()
      ensures Wrote(old(output), old(status), output, status, b)
      ensures old(status) == 0 ==> status == writer(old(output), b) && output == old(output) + b
    {
      if status == 0 {
        status := writer(output, b);
        ghost var n := |output|;
        assert (output + b)[..n] == output && (output + b)[n..] == b;
        output := output + b;
      }
    }

    method DumpChar(y: Byte)
      requires Valid()
      modifies this
      ensures Valid()
      ensures Wrote(old(output), old(status), output, status, [y])
    {
      DumpBlock([y]);
    }

    method DumpInt(x: Word)
      requires Valid()
      modifies this
      ensures Valid()
      ensures Wrote(old(output), old(status), output, status, IntBytes(x))
    {
      DumpBlock(IntBytes(x));
    }

    /** The length, then the whole array in one block. */
    method DumpVector(ws: seq<Word>)
      requires |ws| < 0x8000_0000
      requires Valid()
      modifies this
      ensures Valid()
      ensures Wrote(old(output), old(status), output, status, IntBytes(|ws|) + WordsBytes(ws))
    {
      hide Valid, IntBytes, WordsBytes, Wrote;
      ghost var out0, status0 := output, status;
      DumpInt(|ws|);
      ghost var out1, status1 := output, status;
      DumpBlock(WordsBytes(ws));
      WroteBoth(out0, status0, out1, status1, output, status, IntBytes(|ws|), WordsBytes(ws));
    }

    method DumpString(s: Str)
      requires Short(s)
      requires Valid()
      modifies this
      ensures Valid()
      ensures Wrote(old(output), old(status), output, status, StringBytes(s))
    {
      hide Valid, SizeBytes, Wrote;
      ghost var out0, status0 := output, status;
      match s
      case Null => DumpBlock(SizeBytes(0));
      case Text(text) =>
        DumpBlock(SizeBytes(|text| + 1));
        ghost var out1, status1 := output, status;
        DumpBlock(text + [0]);
        WroteBoth(out0, status0, out1, status1, output, status, SizeBytes(|text| + 1), text + [0]);
        assert SizeBytes(|text| + 1) + (text + [0]) == StringBytes(s);
    }

    method DumpConstant(c: Const)
      requires ShortConst(c)
      requires Valid()
      modifies this
      ensures Valid()
      ensures Wrote(old(output), old(status), output, status, ConstBytes(c))
    {
      hide Valid, LE, StringBytes, Wrote;
      ghost var out0, status0 := output, status;
      DumpChar(match c case KNil => 0 case KBool(_) => 1 case KNumber(_) => 3 case KString(_) => 4);
      ghost var out1, status1 := output, status;
      match c
      case KNil =>
      case KBool(b) =>
        DumpChar(if b then 1 else 0);
        WroteBoth(out0, status0, out1, status1, output, status, [1], [if b then 1 else 0]);
        assert [1] + [if b then 1 else 0] == ConstBytes(c);
      case KNumber(n) =>
        DumpBlock(LE(n, 8));
        WroteBoth(out0, status0, out1, status1, output, status, [3], LE(n, 8));
      case KString(s) =>
        DumpString(s);
        WroteBoth(out0, status0, out1, status1, output, status, [4], StringBytes(s));
    }

    method DumpConstants(f: Proto)
      requires Sized(f)
      requires Valid()
      modifies this
      ensures Valid()
      ensures Wrote(old(output), old(status), output, status,
                    IntBytes(|f.k|) + ConstsBytes(f.k) + (IntBytes(|f.p|) + FunctionsBytes(f, 0, strip)))
      decreases f, 1
    {
      hide Valid, IntBytes, ConstBytes, FunctionBytes, Wrote;
      ghost var out0, status0 := output, status;
      DumpInt(|f.k|);
      ghost var done := IntBytes(|f.k|);
      var i := 0;
      while i < |f.k|
        invariant Valid() && 0 <= i <= |f.k|
        invariant Wrote(out0, status0, output, status, done)
        invariant done + ConstsBytes(f.k[i..]) == IntBytes(|f.k|) + ConstsBytes(f.k)
      {
        ghost var out1, status1 := output, status;
        DumpConstant(f.k[i]);
        WroteBoth(out0, status0, out1, status1, output, status, done, ConstBytes(f.k[i]));
        assert f.k[i..][1..] == f.k[i + 1..];
        assert done + ConstsBytes(f.k[i..]) == done + ConstBytes(f.k[i]) + ConstsBytes(f.k[i + 1..]);
        done := done + ConstBytes(f.k[i]);
        i := i + 1;
      }
      ghost var consts := IntBytes(|f.k|) + ConstsBytes(f.k);
      assert done == consts;
      ghost var out2, status2 := output, status;
      DumpFunctions(f);
      WroteBoth(out0, status0, out2, status2, output, status, consts, IntBytes(|f.p|) + FunctionsBytes(f, 0, strip));
    }

    /** The second half of the constants: the nested functions. */
    method DumpFunctions(f: Proto)
      requires Sized(f)
      requires Valid()
      modifies this
      ensures Valid()
      ensures Wrote(old(output), old(status), output, status, IntBytes(|f.p|) + FunctionsBytes(f, 0, strip))
      decreases f, 0
    {
      hide Valid, IntBytes, FunctionBytes, Wrote;
      ghost var out0, status0 := output, status;
      DumpInt(|f.p|);
      ghost var done := IntBytes(|f.p|);
      var i := 0;
      while i < |f.p|
        invariant Valid() && 0 <= i <= |f.p|
        invariant Wrote(out0, status0, output, status, done)
        invariant done + FunctionsBytes(f, i, strip) == IntBytes(|f.p|) + FunctionsBytes(f, 0, strip)
      {
        ghost var out1, status1 := output, status;
        DumpFunction(f.p[i], f.source);
        ghost var bytes := FunctionBytes(f.p[i], f.source, strip);
        WroteBoth(out0, status0, out1, status1, output, status, done, bytes);
        assert done + FunctionsBytes(f, i, strip) == done + bytes + FunctionsBytes(f, i + 1, strip);
        done := done + bytes;
        i := i + 1;
      }
      assert done == IntBytes(|f.p|) + FunctionsBytes(f, 0, strip);
    }

    method DumpLocVars(vs: seq<LocVar>)
      requires |vs| < 0x8000_0000 && forall i :: 0 <= i < |vs| ==> Short(vs[i].name)
      requires Valid()
      modifies this
      ensures Valid()
      ensures Wrote(old(output), old(status), output, status, IntBytes(|vs|) + LocVarsBytes(vs))
    {
      hide Valid, IntBytes, StringBytes, Wrote;
      ghost var out0, status0 := output, status;
      DumpInt(|vs|);
      ghost var done := IntBytes(|vs|);
      var i := 0;
      while i < |vs|
        invariant Valid() && 0 <= i <= |vs|
        invariant Wrote(out0, status0, output, status, done)
        invariant done + LocVarsBytes(vs[i..]) == IntBytes(|vs|) + LocVarsBytes(vs)
      {
        ghost var out1, status1 := output, status;
        DumpString(vs[i].name);
        ghost var out2, status2 := output, status;
        DumpInt(vs[i].startpc);
        ghost var out3, status3 := output, status;
        DumpInt(vs[i].endpc);
        WroteBoth(out1, status1, out2, status2, out3, status3, StringBytes(vs[i].name), IntBytes(vs[i].startpc));
        WroteBoth(out1, status1, out3, status3, output, status,
                  StringBytes(vs[i].name) + IntBytes(vs[i].startpc), IntBytes(vs[i].endpc));
        WroteBoth(out0, status0, out1, status1, output, status, done, LocVarBytes(vs[i]));
        assert vs[i..][1..] == vs[i + 1..];
        assert done + LocVarsBytes(vs[i..]) == done + LocVarBytes(vs[i]) + LocVarsBytes(vs[i + 1..]);
        done := done + LocVarBytes(vs[i]);
        i := i + 1;
      }
      assert done == IntBytes(|vs|) + LocVarsBytes(vs);
    }

    method DumpStrings(ss: seq<Str>)
      requires |ss| < 0x8000_0000 && forall i :: 0 <= i < |ss| ==> Short(ss[i])
      requires Valid()
      modifies this
      ensures Valid()
      ensures Wrote(old(output), old(status), output, status, IntBytes(|ss|) + StringsBytes(ss))
    {
      hide Valid, IntBytes, StringBytes, Wrote;
      ghost var out0, status0 := output, status;
      DumpInt(|ss|);
      ghost var done := IntBytes(|ss|);
      var i := 0;
      while i < |ss|
        invariant Valid() && 0 <= i <= |ss|
        invariant Wrote(out0, status0, output, status, done)
        invariant done + StringsBytes(ss[i..]) == IntBytes(|ss|) + StringsBytes(ss)
      {
        ghost var out1, status1 := output, status;
        DumpString(ss[i]);
        WroteBoth(out0, status0, out1, status1, output, status, done, StringBytes(ss[i]));
        assert ss[i..][1..] == ss[i + 1..];
        assert done + StringsBytes(ss[i..]) == done + StringBytes(ss[i]) + StringsBytes(ss[i + 1..]);
        done := done + StringBytes(ss[i]);
        i := i + 1;
      }
      assert done == IntBytes(|ss|) + StringsBytes(ss);
    }

    method DumpDebug(f: Proto)
      requires Sized(f)
      requires Valid()
      modifies this
      ensures Valid()
      ensures Wrote(old(output), old(status), output, status, DebugBytes(f, strip))
    {
      hide Valid, IntBytes, WordsBytes, LocVarsBytes, StringsBytes, Wrote;
      ghost var out0, status0 := output, status;
      var lineinfo, locvars, upvalues := f.lineinfo, f.locvars, f.upvalues;
      if strip {
        lineinfo, locvars, upvalues := [], [], [];
      }
      DumpVector(lineinfo);
      ghost var out1, status1 := output, status;
      DumpLocVars(locvars);
      ghost var out2, status2 := output, status;
      DumpStrings(upvalues);
      ghost var a := IntBytes(|lineinfo|) + WordsBytes(lineinfo);
      ghost var b := IntBytes(|locvars|) + LocVarsBytes(locvars);
      ghost var c := IntBytes(|upvalues|) + StringsBytes(upvalues);
      WroteBoth(out0, status0, out1, status1, out2, status2, a, b);
      WroteBoth(out0, status0, out2, status2, output, status, a + b, c);
      if strip {
        NoBytes();
        assert a + b + c == DebugBytes(f, strip);
      }
    }

    method DumpHead(f: Proto, parent: Str)
      requires Sized(f)
      requires Valid()
      modifies this
      ensures Valid()
      ensures Wrote(old(output), old(status), output, status, HeadBytes(f, parent, strip))
    {
      hide Valid, IntBytes, StringBytes, Wrote, Sized;
      SizedSource(f);
      ghost var out0, status0 := output, status;
      var s := if f.source == parent || strip then Null else f.source;
      DumpString(s);
      ghost var out1, status1 := output, status;
      DumpInt(f.linedefined);
      ghost var out2, status2 := output, status;
      WroteBoth(out0, status0, out1, status1, out2, status2, StringBytes(s), IntBytes(f.linedefined));
      DumpInt(f.lastlinedefined);
      ghost var out3, status3 := output, status;
      ghost var a := StringBytes(s) + IntBytes(f.linedefined);
      WroteBoth(out0, status0, out2, status2, out3, status3, a, IntBytes(f.lastlinedefined));
      DumpBytes(f);
      WroteBoth(out0, status0, out3, status3, output, status, a + IntBytes(f.lastlinedefined),
                [f.nups, f.numparams, f.isVararg, f.maxstacksize]);
    }

    method DumpBytes(f: Proto)
      requires Valid()
      modifies this
      ensures Valid()
      ensures Wrote(old(output), old(status), output, status, [f.nups, f.numparams, f.isVararg, f.maxstacksize])
    {
      hide Valid, Wrote;
      ghost var out0, status0 := output, status;
      DumpChar(f.nups);
      ghost var out1, status1 := output, status;
      DumpChar(f.numparams);
      ghost var out2, status2 := output, status;
      WroteBoth(out0, status0, out1, status1, out2, status2, [f.nups], [f.numparams]);
      DumpChar(f.isVararg);
      ghost var out3, status3 := output, status;
      WroteBoth(out0, status0, out2, status2, out3, status3, [f.nups] + [f.numparams], [f.isVararg]);
      DumpChar(f.maxstacksize);
      WroteBoth(out0, status0, out3, status3, output, status, [f.nups] + [f.numparams] + [f.isVararg],
          [f.maxstacksize]);
      assert [f.nups] + [f.numparams] + [f.isVararg] + [f.maxstacksize]
               == [f.nups, f.numparams, f.isVararg, f.maxstacksize];
    }

    method DumpFunction(f: Proto, parent: Str)
      requires Sized(f)
      requires Valid()
      modifies this
      ensures Valid()
      ensures Wrote(old(output), old(status), output, status, FunctionBytes(f, parent, strip))
      decreases f, 2
    {
      hide Valid, HeadBytes, IntBytes, WordsBytes, ConstsBytes, FunctionsBytes, DebugBytes, Wrote, Sized;
      SizedSource(f);
      ghost var out0, status0 := output, status;
      DumpHead(f, parent);
      ghost var out1, status1 := output, status;
      DumpVector(f.code);
      ghost var out2, status2 := output, status;
      ghost var a, b := HeadBytes(f, parent, strip), IntBytes(|f.code|) + WordsBytes(f.code);
      WroteBoth(out0, status0, out1, status1, out2, status2, a, b);
      DumpConstants(f);
      ghost var out3, status3 := output, status;
      ghost var c, d := IntBytes(|f.k|) + ConstsBytes(f.k), IntBytes(|f.p|) + FunctionsBytes(f, 0, strip);
      WroteBoth(out0, status0, out2, status2, out3, status3, a + b, c + d);
      DumpDebug(f);
      WroteBoth(out0, status0, out3, status3, output, status, a + b + (c + d), DebugBytes(f, strip));
      assert a + b + (c + d) + DebugBytes(f, strip) == FunctionBytes(f, parent, strip);
    }

    /** The whole dump: the chunk exactly if the writer never fails, and otherwise what it was given up to its
        failure. */
    method Dump(f: Proto) returns (r: int)
      requires Sized(f) && status == 0 && output == []
      requires Valid()
      modifies this
      ensures Valid()
      ensures r == status
      ensures r == 0 ==> output == ChunkBytes(f, strip)
      ensures r != 0 ==> output <= ChunkBytes(f, strip)
      ensures r != 0 ==> exists n: nat :: n <= |output| && writer(output[..n], output[n..]) == r
    {
      hide FunctionBytes, Sized;
      DumpBlock(HEADER);
      ghost var out1, status1 := output, status;
      DumpFunction(f, Null);
      WroteBoth([], 0, out1, status1, output, status, HEADER, FunctionBytes(f, Null, strip));
      assert [] + ChunkBytes(f, strip) == ChunkBytes(f, strip);
      r := status;
    }
  }

  lemma SizedSource(f: Proto)
    requires Sized(f)
    ensures Short(f.source) && |f.code| < 0x8000_0000 && |f.k| < 0x8000_0000 && |f.p| < 0x8000_0000
    ensures forall i :: 0 <= i < |f.k| ==> ShortConst(f.k[i])
  {
  }

  lemma NoBytes()
    ensures IntBytes(0) + WordsBytes([]) + (IntBytes(0) + LocVarsBytes([])) + (IntBytes(0) + StringsBytes([]))
            == IntBytes(0) + IntBytes(0) + IntBytes(0)
  {
    hide IntBytes;
    assert IntBytes(0) + [] + (IntBytes(0) + []) + (IntBytes(0) + []) == IntBytes(0) + IntBytes(0) + IntBytes(0);
  }
}
