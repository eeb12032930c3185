/** Precompiled chunks: what the dumper writes and the loader reads, as functions on bytes (ldump.cc, lundump.cc). */
module Chunk {
  import opened Bytes

  // ---- prototypes

  /** A string or none: the empty string is not the missing one. */
  datatype Str = Null | Text(text: seq<Byte>)

  type Word = w: nat | w < 0x1_0000_0000

  type Long = w: nat | w < 0x1_0000_0000_0000_0000

  /** An int that is not negative. */
  type Count = n: nat | n < 0x8000_0000

  datatype Const = KNil | KBool(b: bool) | KNumber(n: Long) | KString(s: Str)

  datatype LocVar = LocVar(name: Str, startpc: Count, endpc: Count)

  datatype Proto = Proto(
    source: Str,
    linedefined: Count,
    lastlinedefined: Count,
    nups: Byte,
    numparams: Byte,
    isVararg: Byte,
    maxstacksize: Byte,
    code: seq<Word>,
    k: seq<Const>,
    p: seq<Proto>,
    lineinfo: seq<Word>,
    locvars: seq<LocVar>,
    upvalues: seq<Str>)

  // ---- writing

  function IntBytes(x: Word): seq<Byte> { LE(x, 4) }

  function SizeBytes(x: Long): seq<Byte> { LE(x, 8) }

  /** Strings that fit in memory. */
  predicate Short(s: Str) { s.Text? ==> |s.text| + 1 < 0x1_0000_0000_0000_0000 }

  /** The length with the trailing zero; a missing string has length 0. */
  function StringBytes(s: Str): seq<Byte>
    requires Short(s)
  {
    match s
    case Null => SizeBytes(0)
    case Text(text) => SizeBytes(|text| + 1) + text + [0]
  }

  function WordsBytes(ws: seq<Word>): seq<Byte> {
    if ws == [] then [] else IntBytes(ws[0]) + WordsBytes(ws[1..])
  }

  predicate ShortConst(c: Const) { c.KString? ==> Short(c.s) }

  function ConstBytes(c: Const): seq<Byte>
    requires ShortConst(c)
  {
    match c
    case KNil => [0]
    case KBool(b) => [1, if b then 1 else 0]
    case KNumber(n) => [3] + LE(n, 8)
    case KString(s) => [4] + StringBytes(s)
  }

  function ConstsBytes(cs: seq<Const>): seq<Byte>
    requires forall i :: 0 <= i < |cs| ==> ShortConst(cs[i])
  {
    if cs == [] then [] else ConstBytes(cs[0]) + ConstsBytes(cs[1..])
  }

  function LocVarBytes(v: LocVar): seq<Byte>
    requires Short(v.name)
  {
    StringBytes(v.name) + IntBytes(v.startpc) + IntBytes(v.endpc)
  }

  function LocVarsBytes(vs: seq<LocVar>): seq<Byte>
    requires forall i :: 0 <= i < |vs| ==> Short(vs[i].name)
  {
    if vs == [] then [] else LocVarBytes(vs[0]) + LocVarsBytes(vs[1..])
  }

  function StringsBytes(ss: seq<Str>): seq<Byte>
    requires forall i :: 0 <= i < |ss| ==> Short(ss[i])
  {
    if ss == [] then [] else StringBytes(ss[0]) + StringsBytes(ss[1..])
  }

  /** Sizes are ints and strings fit in memory, in the whole tree. */
  predicate Sized(f: Proto) {
    && Short(f.source) && |f.code| < 0x8000_0000 && |f.k| < 0x8000_0000 && |f.p| < 0x8000_0000
    && |f.lineinfo| < 0x8000_0000 && |f.locvars| < 0x8000_0000 && |f.upvalues| < 0x8000_0000
    && (forall i :: 0 <= i < |f.k| ==> ShortConst(f.k[i]))
    && (forall i :: 0 <= i < |f.locvars| ==> Short(f.locvars[i].name))
    && (forall i :: 0 <= i < |f.upvalues| ==> Short(f.upvalues[i]))
    && (forall i :: 0 <= i < |f.p| ==> Sized(f.p[i]))
  }

  function DebugBytes(f: Proto, strip: bool): seq<Byte>
    requires Sized(f)
  {
    if strip then IntBytes(0) + IntBytes(0) + IntBytes(0)
    else
      IntBytes(|f.lineinfo|) + WordsBytes(f.lineinfo) +
      (IntBytes(|f.locvars|) + LocVarsBytes(f.locvars)) + (IntBytes(|f.upvalues|) + StringsBytes(f.upvalues))
  }

  /** The source is left out when it is the parent's, or stripped. */
  function HeadBytes(f: Proto, parent: Str, strip: bool): seq<Byte>
    requires Sized(f)
  {
    StringBytes(if f.source == parent || strip then Null else f.source) + IntBytes(f.linedefined)
        + IntBytes(f.lastlinedefined)
    + [f.nups, f.numparams, f.isVararg, f.maxstacksize]
  }

  function FunctionBytes(f: Proto, parent: Str, strip: bool): seq<Byte>
    requires Sized(f)
    decreases f, |f.p| + 1
  {
    HeadBytes(f, parent, strip) + (IntBytes(|f.code|) + WordsBytes(f.code)) + (IntBytes(|f.k|) + ConstsBytes(f.k))
    + (IntBytes(|f.p|) + FunctionsBytes(f, 0, strip)) + DebugBytes(f, strip)
  }

  /** The nested functions from the `i`-th on. */
  function FunctionsBytes(f: Proto, i: nat, strip: bool): seq<Byte>
    requires Sized(f) && i <= |f.p|
    decreases f, |f.p| - i
  {
    if i == |f.p| then [] else FunctionBytes(f.p[i], f.source, strip) + FunctionsBytes(f, i + 1, strip)
  }

  const SIGNATURE: seq<Byte> := [27, 76, 117, 97]

  /** Version 5.1, the official format, little-endian, and the sizes of the types. */
  const HEADER: seq<Byte> := SIGNATURE + [0x51, 0, 1, 4, 8, 4, 8, 0]

  function ChunkBytes(f: Proto, strip: bool): seq<Byte>
    requires Sized(f)
  {
    HEADER + FunctionBytes(f, Null, strip)
  }

  // ---- reading

  datatype LoadError = UnexpectedEnd | BadInteger | BadConstant | TooDeep | BadCode | BadHeader

  datatype Loaded<T> = Ok(value: T, rest: seq<Byte>) | Err(why: LoadError)

  const MAXCCALLS := 200

  function LoadBlock(input: seq<Byte>, n: nat): (r: Loaded<seq<Byte>>)
    ensures r.Ok? ==> |r.value| == n && |r.rest| <= |input|
  {
    if |input| < n then Err(UnexpectedEnd) else Ok(input[..n], input[n..])
  }

  function LoadByte(input: seq<Byte>): (r: Loaded<Byte>)
  {
    if input == [] then Err(UnexpectedEnd) else Ok(input[0], input[1..])
  }

  function LoadWord(input: seq<Byte>): Loaded<Word> {
    match LoadBlock(input, 4)
    case Err(why) => Err(why)
    case Ok(b, rest) => UnLEBound(b); Pow256Values(); Ok(UnLE(b), rest)
  }

  function LoadLong(input: seq<Byte>): Loaded<Long> {
    match LoadBlock(input, 8)
    case Err(why) => Err(why)
    case Ok(b, rest) => UnLEBound(b); Pow256Values(); Ok(UnLE(b), rest)
  }

  function LoadInt(input: seq<Byte>): Loaded<Count> {
    match LoadWord(input)
    case Err(why) => Err(why)
    case Ok(w, rest) => if w >= 0x8000_0000 then Err(BadInteger) else Ok(w, rest)
  }

  /** The byte after the text is dropped, whatever it is. */
  function LoadString(input: seq<Byte>): Loaded<Str> {
    match LoadLong(input)
    case Err(why) => Err(why)
    case Ok(size, rest) =>
      if size == 0 then Ok(Null, rest)
      else
        match LoadBlock(rest, size)
        case Err(why) => Err(why)
        case Ok(b, rest') => Ok(Text(b[..size - 1]), rest')
  }

  function LoadConst(input: seq<Byte>): Loaded<Const> {
    match LoadByte(input)
    case Err(why) => Err(why)
    case Ok(t, rest) =>
      if t == 0 then Ok(KNil, rest)
      else if t == 1 then
        (match LoadByte(rest)
         case Err(why) => Err(why)
         case Ok(b, rest') => Ok(KBool(b != 0), rest'))
      else if t == 3 then
        (match LoadLong(rest)
         case Err(why) => Err(why)
         case Ok(n, rest') => Ok(KNumber(n), rest'))
      else if t == 4 then
        (match LoadString(rest)
         case Err(why) => Err(why)
         case Ok(s, rest') => Ok(KString(s), rest'))
      else Err(BadConstant)
  }

  function LoadLocVar(input: seq<Byte>): Loaded<LocVar> {
    match LoadString(input)
    case Err(why) => Err(why)
    case Ok(name, r1) =>
      match LoadInt(r1)
      case Err(why) => Err(why)
      case Ok(startpc, r2) =>
        match LoadInt(r2)
        case Err(why) => Err(why)
        case Ok(endpc, r3) => Ok(LocVar(name, startpc, endpc), r3)
  }

  function RestOf<T>(first: Loaded<T>): seq<Byte> { if first.Ok? then first.rest else [] }

  /** A list is read one element after the other; the first error ends it. */
  function Cons<T>(first: Loaded<T>, more: Loaded<seq<T>>): Loaded<seq<T>> {
    if first.Err? then Err(first.why)
    else if more.Err? then Err(more.why)
    else Ok([first.value] + more.value, more.rest)
  }

  function LoadWords(input: seq<Byte>, n: nat): (r: Loaded<seq<Word>>)
    ensures r.Ok? ==> |r.value| == n
    decreases n
  {
    if n == 0 then Ok([], input)
    else
      var first := LoadWord(input);
      Cons(first, LoadWords(RestOf(first), n - 1))
  }

  function LoadConsts(input: seq<Byte>, n: nat): (r: Loaded<seq<Const>>)
    ensures r.Ok? ==> |r.value| == n
    decreases n
  {
    if n == 0 then Ok([], input)
    else
      var first := LoadConst(input);
      Cons(first, LoadConsts(RestOf(first), n - 1))
  }

  function LoadLocVars(input: seq<Byte>, n: nat): (r: Loaded<seq<LocVar>>)
    ensures r.Ok? ==> |r.value| == n
    decreases n
  {
    if n == 0 then Ok([], input)
    else
      var first := LoadLocVar(input);
      Cons(first, LoadLocVars(RestOf(first), n - 1))
  }

  function LoadStrings(input: seq<Byte>, n: nat): (r: Loaded<seq<Str>>)
    ensures r.Ok? ==> |r.value| == n
    decreases n
  {
    if n == 0 then Ok([], input)
    else
      var first := LoadString(input);
      Cons(first, LoadStrings(RestOf(first), n - 1))
  }

  datatype Head = Head(source: Str, linedefined: Count, lastlinedefined: Count, nups: Byte, numparams: Byte,
      isVararg: Byte, maxstacksize: Byte)

  /** What comes before the code; a missing source is the parent's. */
  function LoadHead(input: seq<Byte>, parent: Str): Loaded<Head> {
    match LoadString(input)
    case Err(why) => Err(why)
    case Ok(source, r1) =>
      match LoadInt(r1)
      case Err(why) => Err(why)
      case Ok(linedefined, r2) =>
        match LoadInt(r2)
        case Err(why) => Err(why)
        case Ok(lastlinedefined, r3) =>
          match LoadBlock(r3, 4)
          case Err(why) => Err(why)
          case Ok(b, r4) =>
            Ok(Head(if source == Null then parent else source, linedefined, lastlinedefined, b[0], b[1], b[2],
                b[3]), r4)
  }

  function LoadCode(input: seq<Byte>): Loaded<seq<Word>> {
    match LoadInt(input)
    case Err(why) => Err(why)
    case Ok(n, rest) => LoadWords(rest, n)
  }

  function LoadConstants(input: seq<Byte>): Loaded<seq<Const>> {
    match LoadInt(input)
    case Err(why) => Err(why)
    case Ok(n, rest) => LoadConsts(rest, n)
  }

  datatype Debug = Debug(lineinfo: seq<Word>, locvars: seq<LocVar>, upvalues: seq<Str>)

  function LoadDebug(input: seq<Byte>): Loaded<Debug> {
    match LoadCode(input)
    case Err(why) => Err(why)
    case Ok(lineinfo, r1) =>
      match LoadInt(r1)
      case Err(why) => Err(why)
      case Ok(n, r2) =>
        match LoadLocVars(r2, n)
        case Err(why) => Err(why)
        case Ok(locvars, r3) =>
          match LoadInt(r3)
          case Err(why) => Err(why)
          case Ok(m, r4) =>
            match LoadStrings(r4, m)
            case Err(why) => Err(why)
            case Ok(upvalues, r5) => Ok(Debug(lineinfo, locvars, upvalues), r5)
  }

  function Assembled(h: Head, code: seq<Word>, k: seq<Const>, p: seq<Proto>, d: Debug): Proto {
    Proto(h.source, h.linedefined, h.lastlinedefined, h.nups, h.numparams, h.isVararg, h.maxstacksize,
          code, k, p, d.lineinfo, d.locvars, d.upvalues)
  }

  /** Reads a function whose nesting makes it the `depth`-th C call; `good` is the verdict of the code check. */
  function LoadFunction(input: seq<Byte>, parent: Str, depth: nat, good: Proto -> bool): Loaded<Proto>
    decreases MAXCCALLS + 1 - depth, 1, 0
  {
    if depth > MAXCCALLS then Err(TooDeep)
    else
      match LoadHead(input, parent)
      case Err(why) => Err(why)
      case Ok(h, r1) =>
        match LoadCode(r1)
        case Err(why) => Err(why)
        case Ok(code, r2) =>
          match LoadConstants(r2)
          case Err(why) => Err(why)
          case Ok(k, r3) =>
            match LoadInt(r3)
            case Err(why) => Err(why)
            case Ok(n, r4) =>
              match LoadFunctions(r4, n, h.source, depth, good)
              case Err(why) => Err(why)
              case Ok(p, r5) =>
                match LoadDebug(r5)
                case Err(why) => Err(why)
                case Ok(d, r6) =>
                  var f := Assembled(h, code, k, p, d);
                  if good(f) then Ok(f, r6) else Err(BadCode)
  }

  /** The functions nested in one at `depth`. */
  function LoadFunctions(input: seq<Byte>, n: nat, parent: Str, depth: nat,
          good: Proto -> bool): (r: Loaded<seq<Proto>>)
    requires depth <= MAXCCALLS
    ensures r.Ok? ==> |r.value| == n
    decreases MAXCCALLS + 1 - depth, 0, n
  {
    if n == 0 then Ok([], input)
    else
      var first := LoadFunction(input, parent, depth + 1, good);
      Cons(first, LoadFunctions(RestOf(first), n - 1, parent, depth, good))
  }

  /** A whole chunk, read when `calls` C calls are active already. */
  function LoadChunk(input: seq<Byte>, calls: nat, good: Proto -> bool): Loaded<Proto> {
    match LoadBlock(input, 12)
    case Err(why) => Err(why)
    case Ok(h, rest) => if h != HEADER then Err(BadHeader) else LoadFunction(rest, Text([61, 63]), calls + 1, good)
  }
}
