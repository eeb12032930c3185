/** What the loader makes of bytes that no dumper has written (lundump.cc). */
module ChunkRefusals {
  import opened Bytes
  import opened Chunk
  import opened ChunkLoads

  // ---- wrong bytes

  /** ESC "Lua", version 5.1, the official format, little-endian, the sizes of int, size_t, instructions and numbers,
      and numbers that are not integral. */
  const DUMP_HEADER: seq<Byte> := [27, 76, 117, 97, 81, 0, 1, 4, 8, 4, 8, 0]

  /** Only what begins with the header of a dump is read. */
  lemma HeaderNeeded(input: seq<Byte>, calls: nat, good: Proto -> bool)
    ensures |input| < 12 ==> LoadChunk(input, calls, good) == Err(UnexpectedEnd)
    ensures |input| >= 12 && input[..12] != DUMP_HEADER ==> LoadChunk(input, calls, good) == Err(BadHeader)
    ensures LoadChunk(input, calls, good).Ok? ==> |input| >= 12 && input[..12] == DUMP_HEADER
  {
    assert HEADER == DUMP_HEADER;
  }

  /** A constant is nil, a boolean, a number or a string; any other tag is an error, wherever in the list it is. */
  lemma TagNeeded(cs: seq<Const>, tag: Byte, n: Count, rest: seq<Byte>)
    requires |cs| < n && tag !in {0, 1, 3, 4} && forall i :: 0 <= i < |cs| ==> ShortConst(cs[i])
    ensures LoadConstants(IntBytes(n) + ConstsBytes(cs) + [tag] + rest) == Err(BadConstant)
  {
    hide LoadInt, LoadConsts, IntBytes, ConstsBytes;
    assert IntBytes(n) + ConstsBytes(cs) + [tag] + rest == IntBytes(n) + (ConstsBytes(cs) + [tag] + rest);
    IntLoads(n, ConstsBytes(cs) + [tag] + rest);
    TagInList(cs, tag, n, rest);
  }

  lemma {:induction false} TagInList(cs: seq<Const>, tag: Byte, n: nat, rest: seq<Byte>)
    requires |cs| < n && tag !in {0, 1, 3, 4} && forall i :: 0 <= i < |cs| ==> ShortConst(cs[i])
    ensures LoadConsts(ConstsBytes(cs) + [tag] + rest, n) == Err(BadConstant)
    decreases |cs|
  {
    var input := ConstsBytes(cs) + [tag] + rest;
    if cs == [] {
      assert input[0] == tag;
    } else {
      hide LoadConst, ConstBytes;
      assert input == ConstBytes(cs[0]) + (ConstsBytes(cs[1..]) + [tag] + rest);
      ConstLoads(cs[0], ConstsBytes(cs[1..]) + [tag] + rest);
      TagInList(cs[1..], tag, n - 1, rest);
    }
  }

  /** A count whose highest bit is set is an error: of instructions and of constants, and so the others. */
  lemma CountNeeded(w: Word, rest: seq<Byte>)
    requires w >= 0x8000_0000
    ensures LoadInt(LE(w, 4) + rest) == Err(BadInteger)
    ensures LoadCode(LE(w, 4) + rest) == Err(BadInteger)
    ensures LoadConstants(LE(w, 4) + rest) == Err(BadInteger)
    ensures LoadDebug(LE(w, 4) + rest) == Err(BadInteger)
  {
    hide LoadWord, LE;
    WordLoads(w, rest);
  }

  /** Two bytes are read without regard to what a dumper writes there: any byte but zero is true, and any byte ends a
      string. */
  lemma AnyByte(b: Byte, text: seq<Byte>, z: Byte, rest: seq<Byte>)
    requires |text| + 1 < 0x1_0000_0000_0000_0000
    ensures LoadConst([1, b] + rest) == Ok(KBool(b > 0), rest)
    ensures LoadString(SizeBytes(|text| + 1) + (text + [z]) + rest) == Ok(Text(text), rest)
  {
    hide LE, LoadLong, LoadBlock;
    assert ([1, b] + rest)[1..] == [b] + rest && ([b] + rest)[1..] == rest;
    var body := text + [z];
    assert SizeBytes(|text| + 1) + body + rest == SizeBytes(|text| + 1) + (body + rest);
    LongLoads(|text| + 1, body + rest);
    BlockLoads(body, rest);
    assert body[..|text|] == text;
  }

  // ---- too few bytes

  /** With more input behind it, what was read is read the same and the rest is longer, and what was wrong is wrong;
      only an end of the input that came too early may go away. */
  ghost predicate Extends<T>(r: Loaded<T>, longer: Loaded<T>, more: seq<Byte>) {
    match r
    case Ok(value, rest) => longer == Ok(value, rest + more)
    case Err(why) => why == UnexpectedEnd || longer == Err(why)
  }

  lemma BlockExtends(input: seq<Byte>, n: nat, more: seq<Byte>)
    ensures Extends(LoadBlock(input, n), LoadBlock(input + more, n), more)
  {
    if n <= |input| {
      assert (input + more)[..n] == input[..n] && (input + more)[n..] == input[n..] + more;
    }
  }

  lemma ByteExtends(input: seq<Byte>, more: seq<Byte>)
    ensures Extends(LoadByte(input), LoadByte(input + more), more)
  {
    if input != [] {
      assert (input + more)[1..] == input[1..] + more;
    }
  }

  lemma IntExtends(input: seq<Byte>, more: seq<Byte>)
    ensures Extends(LoadWord(input), LoadWord(input + more), more)
    ensures Extends(LoadInt(input), LoadInt(input + more), more)
  {
    hide LoadBlock, UnLE;
    BlockExtends(input, 4, more);
  }

  lemma LongExtends(input: seq<Byte>, more: seq<Byte>)
    ensures Extends(LoadLong(input), LoadLong(input + more), more)
  {
    hide LoadBlock, UnLE;
    BlockExtends(input, 8, more);
  }

  lemma StringExtends(input: seq<Byte>, more: seq<Byte>)
    ensures Extends(LoadString(input), LoadString(input + more), more)
  {
    hide LoadBlock, LoadLong;
    LongExtends(input, more);
    if LoadLong(input).Ok? {
      BlockExtends(LoadLong(input).rest, LoadLong(input).value, more);
    }
  }

  lemma ConstExtends(input: seq<Byte>, more: seq<Byte>)
    ensures Extends(LoadConst(input), LoadConst(input + more), more)
  {
    hide LoadByte, LoadLong, LoadString;
    ByteExtends(input, more);
    if LoadByte(input).Ok? {
      var rest := LoadByte(input).rest;
      ByteExtends(rest, more);
      LongExtends(rest, more);
      StringExtends(rest, more);
    }
  }

  lemma LocVarExtends(input: seq<Byte>, more: seq<Byte>)
    ensures Extends(LoadLocVar(input), LoadLocVar(input + more), more)
  {
    hide LoadInt, LoadString;
    StringExtends(input, more);
    if LoadString(input).Ok? {
      var r1 := LoadString(input).rest;
      IntExtends(r1, more);
      if LoadInt(r1).Ok? {
        IntExtends(LoadInt(r1).rest, more);
      }
    }
  }

  lemma {:induction false} WordsExtend(input: seq<Byte>, n: nat, more: seq<Byte>)
    ensures Extends(LoadWords(input, n), LoadWords(input + more, n), more)
    decreases n
  {
    hide LoadWord;
    if n > 0 {
      IntExtends(input, more);
      WordsExtend(RestOf(LoadWord(input)), n - 1, more);
    }
  }

  lemma {:induction false} ConstsExtend(input: seq<Byte>, n: nat, more: seq<Byte>)
    ensures Extends(LoadConsts(input, n), LoadConsts(input + more, n), more)
    decreases n
  {
    hide LoadConst;
    if n > 0 {
      ConstExtends(input, more);
      ConstsExtend(RestOf(LoadConst(input)), n - 1, more);
    }
  }

  lemma {:induction false} LocVarsExtend(input: seq<Byte>, n: nat, more: seq<Byte>)
    ensures Extends(LoadLocVars(input, n), LoadLocVars(input + more, n), more)
    decreases n
  {
    hide LoadLocVar;
    if n > 0 {
      LocVarExtends(input, more);
      LocVarsExtend(RestOf(LoadLocVar(input)), n - 1, more);
    }
  }

  lemma {:induction false} StringsExtend(input: seq<Byte>, n: nat, more: seq<Byte>)
    ensures Extends(LoadStrings(input, n), LoadStrings(input + more, n), more)
    decreases n
  {
    hide LoadString;
    if n > 0 {
      StringExtends(input, more);
      StringsExtend(RestOf(LoadString(input)), n - 1, more);
    }
  }

  lemma CodeExtends(input: seq<Byte>, more: seq<Byte>)
    ensures Extends(LoadCode(input), LoadCode(input + more), more)
    ensures Extends(LoadConstants(input), LoadConstants(input + more), more)
  {
    hide LoadInt, LoadWords, LoadConsts;
    IntExtends(input, more);
    if LoadInt(input).Ok? {
      WordsExtend(LoadInt(input).rest, LoadInt(input).value, more);
      ConstsExtend(LoadInt(input).rest, LoadInt(input).value, more);
    }
  }

  lemma HeadExtends(input: seq<Byte>, parent: Str, more: seq<Byte>)
    ensures Extends(LoadHead(input, parent), LoadHead(input + more, parent), more)
  {
    hide LoadInt, LoadString, LoadBlock;
    StringExtends(input, more);
    if LoadString(input).Ok? {
      var r1 := LoadInt(LoadString(input).rest);
      IntExtends(LoadString(input).rest, more);
      if r1.Ok? {
        IntExtends(r1.rest, more);
        if LoadInt(r1.rest).Ok? {
          BlockExtends(LoadInt(r1.rest).rest, 4, more);
        }
      }
    }
  }

  lemma DebugExtends(input: seq<Byte>, more: seq<Byte>)
    ensures Extends(LoadDebug(input), LoadDebug(input + more), more)
  {
    hide LoadInt, LoadCode, LoadLocVars, LoadStrings;
    CodeExtends(input, more);
    if LoadCode(input).Ok? {
      var r1 := LoadInt(LoadCode(input).rest);
      IntExtends(LoadCode(input).rest, more);
      if r1.Ok? {
        LocVarsExtend(r1.rest, r1.value, more);
        var r2 := LoadLocVars(r1.rest, r1.value);
        if r2.Ok? {
          IntExtends(r2.rest, more);
          if LoadInt(r2.rest).Ok? {
            StringsExtend(LoadInt(r2.rest).rest, LoadInt(r2.rest).value, more);
          }
        }
      }
    }
  }

  lemma {:induction false} FunctionExtends(input: seq<Byte>, parent: Str, depth: nat, good: Proto -> bool,
          more: seq<Byte>)
    ensures Extends(LoadFunction(input, parent, depth, good), LoadFunction(input + more, parent, depth, good), more)
    decreases MAXCCALLS + 1 - depth, 1, 0
  {
    hide LoadHead, LoadCode, LoadConstants, LoadInt, LoadFunctions, LoadDebug;
    if depth <= MAXCCALLS {
      HeadExtends(input, parent, more);
      var r1 := LoadHead(input, parent);
      if r1.Ok? {
        CodeExtends(r1.rest, more);
        var r2 := LoadCode(r1.rest);
        if r2.Ok? {
          CodeExtends(r2.rest, more);
          var r3 := LoadConstants(r2.rest);
          if r3.Ok? {
            IntExtends(r3.rest, more);
            var r4 := LoadInt(r3.rest);
            if r4.Ok? {
              FunctionsExtend(r4.rest, r4.value, r1.value.source, depth, good, more);
              var r5 := LoadFunctions(r4.rest, r4.value, r1.value.source, depth, good);
              if r5.Ok? {
                DebugExtends(r5.rest, more);
              }
            }
          }
        }
      }
    }
  }

  lemma {:induction false} FunctionsExtend(input: seq<Byte>, n: nat, parent: Str, depth: nat, good: Proto -> bool,
          more: seq<Byte>)
    requires depth <= MAXCCALLS
    ensures Extends(LoadFunctions(input, n, parent, depth, good), LoadFunctions(input + more, n, parent, depth, good),
                    more)
    decreases MAXCCALLS + 1 - depth, 0, n
  {
    hide LoadFunction;
    if n > 0 {
      FunctionExtends(input, parent, depth + 1, good, more);
      FunctionsExtend(RestOf(LoadFunction(input, parent, depth + 1, good)), n - 1, parent, depth, good, more);
    }
  }

  /** A chunk is read without looking at what follows it. */
  lemma ChunkExtends(input: seq<Byte>, calls: nat, good: Proto -> bool, more: seq<Byte>)
    ensures Extends(LoadChunk(input, calls, good), LoadChunk(input + more, calls, good), more)
  {
    hide LoadBlock, LoadFunction;
    BlockExtends(input, 12, more);
    if LoadBlock(input, 12).Ok? {
      FunctionExtends(LoadBlock(input, 12).rest, Text([61, 63]), calls + 1, good, more);
    }
  }

  /** A chunk that is cut off anywhere is refused, and for that reason. */
  lemma CutOff(input: seq<Byte>, calls: nat, good: Proto -> bool, k: nat)
    requires LoadChunk(input, calls, good).Ok? && k < |input| - |LoadChunk(input, calls, good).rest|
    ensures LoadChunk(input[..k], calls, good) == Err(UnexpectedEnd)
  {
    hide LoadChunk;
    assert input[..k] + input[k..] == input;
    ChunkExtends(input[..k], calls, good, input[k..]);
  }

  /** In particular no proper prefix of a dump that loads can be loaded. */
  lemma DumpCutOff(f: Proto, strip: bool, calls: nat, good: Proto -> bool, k: nat)
    requires Sized(f) && Accepted(f, Null, Text([61, 63]), strip, calls + 1, good) && k < |ChunkBytes(f, strip)|
    ensures LoadChunk(ChunkBytes(f, strip)[..k], calls, good) == Err(UnexpectedEnd)
  {
    hide ChunkBytes, LoadChunk, Accepted, Restored, Sized;
    ChunkLoadsRestored(f, strip, calls, good);
    CutOff(ChunkBytes(f, strip), calls, good, k);
  }
}
