/** The loader as the C code runs it: a stream that comes in pieces, and loops that fill a prototype (lzio.cc,
    lundump.cc). */
module ChunkLoader {
  import opened Bytes
  import opened Chunk

  /** An error is thrown out of all the calls. */
  datatype Result<T> = Success(value: T) | Failure(why: LoadError) {
    predicate IsFailure() { Failure? }

    function PropagateFailure<U>(): Result<U>
      requires Failure?
    {
      Failure(why)
    }

    function Extract(): T
      requires Success?
    {
      value
    }
  }

  /** The loader agrees with the function on bytes: same value and same bytes left, or the same error. */
  predicate Agrees<T(==)>(r: Result<T>, spec: Loaded<T>, unread: seq<Byte>) {
    match spec
    case Ok(value, rest) => r == Success(value) && unread == rest
    case Err(why) => r == Failure(why)
  }

  // ---- the stream

  /** The pieces a reader hands out, up to the first empty one. */
  function Offered(pieces: seq<seq<Byte>>): seq<Byte> {
    if pieces == [] || pieces[0] == [] then [] else pieces[0] + Offered(pieces[1..])
  }

  const EOZ := -1

  class Zio {
    /** What is unread of the piece at hand. */
    var buffer: seq<Byte>
    /** What the reader is still going to hand out. */
    var pieces: seq<seq<Byte>>

    constructor (pieces: seq<seq<Byte>>)
      ensures Unread() == Offered(pieces)
    {
      buffer, this.pieces := [], pieces;
      new;
      assert [] + Offered(pieces) == Offered(pieces);
    }

    function Unread(): seq<Byte>
      reads this
    {
      buffer + Offered(pieces)
    }

    method Fill() returns (c: int)
      requires buffer == []
      modifies this
      ensures c == EOZ ==> old(Unread()) == [] && buffer == []
      ensures c != EOZ ==> 0 <= c < 256 && [c] + Unread() == old(Unread())
    {
      if pieces == [] {
        return EOZ;
      }
      var b := pieces[0];
      pieces := pieces[1..];
      if b == [] {
        return EOZ;
      }
      buffer := b[1..];
      c := b[0];
      assert [c] + (b[1..] + Offered(pieces)) == b + Offered(pieces);
    }

    method Lookahead() returns (c: int)
      modifies this
      ensures c == EOZ <==> old(Unread()) == []
      ensures c != EOZ ==> buffer != [] && c == buffer[0] && Unread() == old(Unread())
    {
      if buffer == [] {
        c := Fill();
        if c == EOZ {
          return;
        }
        buffer := [c] + buffer;
        assert [c] + old(buffer) + Offered(pieces) == [c] + (old(buffer) + Offered(pieces));
      }
      c := buffer[0];
    }

    /** Copies from the piece at hand. */
    method Copy(m: nat) returns (b: seq<Byte>)
      requires m <= |buffer|
      modifies this
      ensures |b| == m && b + Unread() == old(Unread())
    {
      ghost var piece, coming := buffer, Offered(pieces);
      b, buffer := buffer[..m], buffer[m..];
      assert piece[..m] + (piece[m..] + coming) == piece + coming;
    }

    /** Copies `n` bytes, or as many as there are. */
    method Read(n: nat) returns (b: seq<Byte>, missing: nat)
      modifies this
      ensures var all := old(Unread());
              if n <= |all| then missing == 0 && b == all[..n] && Unread() == all[n..]
              else missing == n - |all| && b == all
    {
      hide *;
      ghost var all := Unread();
      b, missing := [], n;
      assert [] + all == all;
      while missing > 0
        invariant |b| + missing == n
        invariant b + Unread() == all
        decreases missing
      {
        var c := Lookahead();
        if c == EOZ {
          assert b + [] == b;
          return;
        }
        ghost var before := b;
        var m := if missing <= |buffer| then missing else |buffer|;
        var copied := Copy(m);
        b, missing := b + copied, missing - m;
        assert before + copied + Unread() == before + (copied + Unread());
      }
      assert all[..n] == b && all[n..] == Unread();
    }
  }

  // ---- arrays read in one block

  function UnWords(b: seq<Byte>): seq<Word>
    requires |b| % 4 == 0
  {
    if b == [] then [] else UnLEBound(b[..4]); Pow256Values(); [UnLE(b[..4])] + UnWords(b[4..])
  }

  /** An array of instructions or line numbers is one block of memory. */
  lemma {:induction false} WordsInOneBlock(input: seq<Byte>, n: nat)
    ensures LoadWords(input, n) == if |input| < 4 * n then Err(UnexpectedEnd)
                                   else Ok(UnWords(input[..4 * n]), input[4 * n..])
    decreases n
  {
    if n > 0 {
      hide UnLE;
      var first := LoadWord(input);
      WordsInOneBlock(RestOf(first), n - 1);
      if |input| >= 4 * n {
        var b, rest := input[..4 * n], input[4..];
        assert b[..4] == input[..4] && b[4..] == rest[..4 * (n - 1)] && rest[4 * (n - 1)..] == input[4 * n..];
      }
    }
  }

  /** Elements already read, then the rest of the list. */
  function After<T>(done: seq<T>, more: Loaded<seq<T>>): Loaded<seq<T>> {
    if more.Err? then Err(more.why) else Ok(done + more.value, more.rest)
  }

  lemma AfterNothing<T>(done: seq<T>, more: Loaded<seq<T>>)
    ensures After([], more) == more && After(done, Ok([], RestOf(more))) == Ok(done, RestOf(more))
  {
    assert done + [] == done;
    if more.Ok? {
      assert [] + more.value == more.value;
    }
  }

  lemma AfterOne<T>(done: seq<T>, first: Loaded<T>, more: Loaded<seq<T>>)
    requires first.Ok?
    ensures After(done, Cons(first, more)) == After(done + [first.value], more)
  {
    if more.Ok? {
      assert done + ([first.value] + more.value) == done + [first.value] + more.value;
    }
  }

  // ---- the loader

  class Loader {
    const z: Zio
    const good: Proto -> bool
    /** The number of active C calls. */
    var calls: nat

    constructor (z: Zio, good: Proto -> bool, calls: nat)
      ensures this.z == z && this.good == good && this.calls == calls
    {
      this.z, this.good, this.calls := z, good, calls;
    }

    method Block(n: nat) returns (r: Result<seq<Byte>>)
      modifies z
      ensures Agrees(r, LoadBlock(old(z.Unread()), n), z.Unread())
    {
      var b, missing := z.Read(n);
      r := if missing != 0 then Failure(UnexpectedEnd) else Success(b);
    }

    method Char() returns (r: Result<Byte>)
      modifies z
      ensures Agrees(r, LoadByte(old(z.Unread())), z.Unread())
    {
      var b :- Block(1);
      r := Success(b[0]);
    }

    method Int() returns (r: Result<Count>)
      modifies z
      ensures Agrees(r, LoadInt(old(z.Unread())), z.Unread())
    {
      var b :- Block(4);
      UnLEBound(b);
      Pow256Values();
      var x := UnLE(b);
      r := if x >= 0x8000_0000 then Failure(BadInteger) else Success(x);
    }

    method Number() returns (r: Result<Long>)
      modifies z
      ensures Agrees(r, LoadLong(old(z.Unread())), z.Unread())
    {
      var b :- Block(8);
      UnLEBound(b);
      Pow256Values();
      r := Success(UnLE(b));
    }

    method String() returns (r: Result<Str>)
      modifies z
      ensures Agrees(r, LoadString(old(z.Unread())), z.Unread())
    {
      hide LoadBlock, LoadLong;
      var size :- Number();
      if size == 0 {
        return Success(Null);
      }
      var s :- Block(size);
      r := Success(Text(s[..size - 1]));
    }

    method Vector(n: nat) returns (r: Result<seq<Word>>)
      modifies z
      ensures Agrees(r, LoadWords(old(z.Unread()), n), z.Unread())
    {
      hide LoadWords, UnWords;
      WordsInOneBlock(z.Unread(), n);
      var b :- Block(4 * n);
      r := Success(UnWords(b));
    }

    method Code() returns (r: Result<seq<Word>>)
      modifies z
      ensures Agrees(r, LoadCode(old(z.Unread())), z.Unread())
    {
      hide LoadInt, LoadWords;
      var n :- Int();
      r := Vector(n);
    }

    method Constant() returns (r: Result<Const>)
      modifies z
      ensures Agrees(r, LoadConst(old(z.Unread())), z.Unread())
    {
      hide LoadByte, LoadLong, LoadString;
      var t :- Char();
      if t == 0 {
        r := Success(KNil);
      } else if t == 1 {
        var b :- Char();
        r := Success(KBool(b != 0));
      } else if t == 3 {
        var n :- Number();
        r := Success(KNumber(n));
      } else if t == 4 {
        var s :- String();
        r := Success(KString(s));
      } else {
        r := Failure(BadConstant);
      }
    }

    method Constants() returns (r: Result<seq<Const>>)
      modifies z
      ensures Agrees(r, LoadConstants(old(z.Unread())), z.Unread())
    {
      hide LoadInt, LoadConst;
      var n :- Int();
      ghost var input := z.Unread();
      var k := [];
      AfterNothing(k, LoadConsts(input, n));
      var i := 0;
      while i < n
        invariant 0 <= i <= n
        invariant LoadConsts(input, n) == After(k, LoadConsts(z.Unread(), n - i))
      {
        ghost var here := z.Unread();
        var o :- Constant();
        AfterOne(k, LoadConst(here), LoadConsts(RestOf(LoadConst(here)), n - i - 1));
        k := k + [o];
        i := i + 1;
      }
      AfterNothing(k, LoadConsts(z.Unread(), 0));
      r := Success(k);
    }

    method LocVars(n: nat) returns (r: Result<seq<LocVar>>)
      modifies z
      ensures Agrees(r, LoadLocVars(old(z.Unread()), n), z.Unread())
    {
      hide LoadInt, LoadString;
      ghost var input := z.Unread();
      var vs := [];
      AfterNothing(vs, LoadLocVars(input, n));
      var i := 0;
      while i < n
        invariant 0 <= i <= n
        invariant LoadLocVars(input, n) == After(vs, LoadLocVars(z.Unread(), n - i))
      {
        ghost var here := z.Unread();
        var name :- String();
        var startpc :- Int();
        var endpc :- Int();
        AfterOne(vs, LoadLocVar(here), LoadLocVars(RestOf(LoadLocVar(here)), n - i - 1));
        vs := vs + [LocVar(name, startpc, endpc)];
        i := i + 1;
      }
      AfterNothing(vs, LoadLocVars(z.Unread(), 0));
      r := Success(vs);
    }

    method Strings(n: nat) returns (r: Result<seq<Str>>)
      modifies z
      ensures Agrees(r, LoadStrings(old(z.Unread()), n), z.Unread())
    {
      hide LoadString;
      ghost var input := z.Unread();
      var ss := [];
      AfterNothing(ss, LoadStrings(input, n));
      var i := 0;
      while i < n
        invariant 0 <= i <= n
        invariant LoadStrings(input, n) == After(ss, LoadStrings(z.Unread(), n - i))
      {
        ghost var here := z.Unread();
        var s :- String();
        AfterOne(ss, LoadString(here), LoadStrings(RestOf(LoadString(here)), n - i - 1));
        ss := ss + [s];
        i := i + 1;
      }
      AfterNothing(ss, LoadStrings(z.Unread(), 0));
      r := Success(ss);
    }

    method DebugPart() returns (r: Result<Debug>)
      modifies z
      ensures Agrees(r, LoadDebug(old(z.Unread())), z.Unread())
    {
      hide LoadInt, LoadCode, LoadLocVars, LoadStrings;
      var lineinfo :- Code();
      var n :- Int();
      var locvars :- LocVars(n);
      n :- Int();
      var upvalues :- Strings(n);
      r := Success(Debug(lineinfo, locvars, upvalues));
    }

    method HeadPart(parent: Str) returns (r: Result<Head>)
      modifies z
      ensures Agrees(r, LoadHead(old(z.Unread()), parent), z.Unread())
    {
      hide LoadInt, LoadString, LoadBlock;
      var source :- String();
      if source == Null {
        source := parent;
      }
      var linedefined :- Int();
      var lastlinedefined :- Int();
      var b :- Block(4);
      r := Success(Head(source, linedefined, lastlinedefined, b[0], b[1], b[2], b[3]));
    }

    /** A function and everything nested in it; the call count is back where it was unless an error is thrown. */
    method Function(parent: Str) returns (r: Result<Proto>)
      modifies this, z
      ensures Agrees(r, LoadFunction(old(z.Unread()), parent, old(calls) + 1, good), z.Unread())
      ensures r.Success? ==> calls == old(calls)
      decreases MAXCCALLS + 1 - calls, 1
    {
      hide LoadInt, LoadHead, LoadCode, LoadConstants, LoadFunctions, LoadDebug;
      calls := calls + 1;
      if calls > MAXCCALLS {
        return Failure(TooDeep);
      }
      var h :- HeadPart(parent);
      var code :- Code();
      var k :- Constants();
      var n :- Int();
      var p :- Functions(n, h.source);
      var d :- DebugPart();
      var f := Assembled(h, code, k, p, d);
      if !good(f) {
        return Failure(BadCode);
      }
      calls := calls - 1;
      r := Success(f);
    }

    method Functions(n: nat, parent: Str) returns (r: Result<seq<Proto>>)
      requires calls <= MAXCCALLS
      modifies this, z
      ensures Agrees(r, LoadFunctions(old(z.Unread()), n, parent, old(calls), good), z.Unread())
      ensures r.Success? ==> calls == old(calls)
      decreases MAXCCALLS + 1 - calls, 2
    {
      hide LoadFunction;
      ghost var input, depth := z.Unread(), calls;
      var p := [];
      AfterNothing(p, LoadFunctions(input, n, parent, depth, good));
      var i := 0;
      while i < n
        invariant 0 <= i <= n && calls == depth
        invariant LoadFunctions(input, n, parent, depth, good)
                    == After(p, LoadFunctions(z.Unread(), n - i, parent, depth, good))
      {
        ghost var here := z.Unread();
        var f :- Function(parent);
        ghost var first := LoadFunction(here, parent, depth + 1, good);
        AfterOne(p, first, LoadFunctions(RestOf(first), n - i - 1, parent, depth, good));
        p := p + [f];
        i := i + 1;
      }
      AfterNothing(p, LoadFunctions(z.Unread(), 0, parent, depth, good));
      r := Success(p);
    }

    /** A whole chunk: what the function on bytes gives for the joined pieces, however the reader splits them. */
    method Undump() returns (r: Result<Proto>)
      modifies this, z
      ensures Agrees(r, LoadChunk(old(z.Unread()), old(calls), good), z.Unread())
      ensures r.Success? ==> calls == old(calls)
    {
      hide LoadBlock, LoadFunction;
      var h :- Block(12);
      if h != HEADER {
        return Failure(BadHeader);
      }
      r := Function(Text([61, 63]));
    }
  }
}
