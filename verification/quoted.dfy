/** Quoting a string with `%q` and reading it back with the lexer (lstrlib.cc, llex.cc). */
module Quoted {
  import opened Bytes

  const QUOTE: Byte := 34
  const BACKSLASH: Byte := 92
  const NEWLINE: Byte := 10
  const RETURN: Byte := 13
  const MAX_INT := 0x7fff_fffd

  // ---- quoting

  function QuotedByte(c: Byte): seq<Byte> {
    if c == QUOTE || c == BACKSLASH || c == NEWLINE then [BACKSLASH, c]
    else if c == RETURN then [BACKSLASH, 'r' as int]
    else if c == 0 then [BACKSLASH, '0' as int, '0' as int, '0' as int]
    else [c]
  }

  function QuotedBody(s: seq<Byte>): seq<Byte> {
    if s == [] then [] else QuotedBody(s[..|s| - 1]) + QuotedByte(s[|s| - 1])
  }

  function Quote(s: seq<Byte>): seq<Byte> { [QUOTE] + QuotedBody(s) + [QUOTE] }

  /** Appends a quoted string to a buffer. */
  method AddQuoted(b0: seq<Byte>, s: seq<Byte>) returns (b: seq<Byte>)
    ensures b == b0 + Quote(s)
  {
    hide QuotedByte;
    b := b0 + [QUOTE];
    for i := 0 to |s|
      invariant b == b0 + [QUOTE] + QuotedBody(s[..i])
    {
      assert s[..i + 1][..i] == s[..i];
      b := AddByte(b, s[i]);
    }
    assert s[..|s|] == s;
    b := b + [QUOTE];
  }

  method AddByte(b0: seq<Byte>, c: Byte) returns (b: seq<Byte>)
    ensures b == b0 + QuotedByte(c)
  {
    if c == QUOTE || c == BACKSLASH || c == NEWLINE {
      b := b0 + [BACKSLASH];
      b := b + [c];
    } else if c == RETURN {
      b := b0 + [BACKSLASH, 'r' as int];
    } else if c == 0 {
      b := b0 + [BACKSLASH, '0' as int, '0' as int, '0' as int];
    } else {
      b := b0 + [c];
    }
  }

  // ---- reading

  datatype LexError = Unfinished | TooManyLines | EscapeTooLarge

  datatype Reading = Text(text: seq<Byte>, rest: seq<Byte>, line: nat) | Stuck(why: LexError)

  predicate IsNewline(c: int) { c == NEWLINE || c == RETURN }

  /** A line end is one newline character, or two different ones. */
  function AfterLine(input: seq<Byte>): (rest: seq<Byte>)
    requires input != []
    ensures |rest| < |input|
  {
    if |input| > 1 && IsNewline(input[1]) && input[1] != input[0] then input[2..] else input[1..]
  }

  /** The letters of one-character escapes and what they stand for; -1 for any other byte. */
  function Escape(c: Byte): int {
    if c == 'a' as int then 7
    else if c == 'b' as int then 8
    else if c == 'f' as int then 12
    else if c == 'n' as int then NEWLINE
    else if c == 'r' as int then RETURN
    else if c == 't' as int then 9
    else if c == 'v' as int then 11
    else -1
  }

  /** How many decimal digits follow, up to `max`. */
  function Digits(input: seq<Byte>, max: nat): (n: nat)
    ensures n <= max && n <= |input| && forall i :: 0 <= i < n ==> IsDigit(input[i])
    ensures max > 0 && input != [] && IsDigit(input[0]) ==> n > 0
    decreases max
  {
    if max == 0 || input == [] || !IsDigit(input[0]) then 0 else 1 + Digits(input[1..], max - 1)
  }

  function ValueOf(digits: seq<Byte>): nat
    requires forall i :: 0 <= i < |digits| ==> IsDigit(digits[i])
  {
    if digits == [] then 0
    else
      assert IsDigit(digits[|digits| - 1]);
      var d: nat := digits[|digits| - 1] - '0' as int;
      10 * ValueOf(digits[..|digits| - 1]) + d
  }

  /** What is left of a string literal after its opening delimiter; `text` has been read already. */
  function ReadTail(input: seq<Byte>, del: Byte, line: nat, text: seq<Byte>): Reading
    decreases |input|
  {
    if input == [] then Stuck(Unfinished)
    else if input[0] == del then Text(text, input[1..], line)
    else if IsNewline(input[0]) then Stuck(Unfinished)
    else if input[0] == BACKSLASH then
      if |input| == 1 then Stuck(Unfinished)
      else if Escape(input[1]) != -1 then ReadTail(input[2..], del, line, text + [Escape(input[1])])
      else if IsNewline(input[1]) then
        if line + 1 >= MAX_INT then Stuck(TooManyLines)
        else ReadTail(AfterLine(input[1..]), del, line + 1, text + [NEWLINE])
      else if IsDigit(input[1]) then
        var n := Digits(input[1..], 3);
        var c := ValueOf(input[1..][..n]);
        if c > 255 then Stuck(EscapeTooLarge) else ReadTail(input[1 + n..], del, line, text + [c])
      else ReadTail(input[2..], del, line, text + [input[1]])
    else ReadTail(input[1..], del, line, text + [input[0]])
  }

  function Newlines(s: seq<Byte>): nat {
    if s == [] then 0 else (if s[0] == NEWLINE then 1 else 0) + Newlines(s[1..])
  }

  lemma {:induction false} QuotedFirst(s: seq<Byte>)
    requires s != []
    ensures QuotedBody(s) == QuotedByte(s[0]) + QuotedBody(s[1..])
  {
    hide QuotedByte;
    if |s| == 1 {
      assert s[..0] == [] && s[1..] == [];
    } else {
      var front, last := s[..|s| - 1], QuotedByte(s[|s| - 1]);
      QuotedFirst(front);
      assert front[1..] == s[1..][..|s| - 2];
      assert QuotedBody(s[1..]) == QuotedBody(front[1..]) + last;
      assert QuotedByte(s[0]) + QuotedBody(front[1..]) + last == QuotedByte(s[0]) + (QuotedBody(front[1..]) + last);
    }
  }

  /** The reader takes one quoted byte at a time. */
  lemma ReadByte(c: Byte, tail: seq<Byte>, line: nat, text: seq<Byte>)
    requires tail != [] && tail[0] != RETURN
    ensures ReadTail(QuotedByte(c) + tail, QUOTE, line, text)
            == if c != NEWLINE then ReadTail(tail, QUOTE, line, text + [c])
               else if line + 1 >= MAX_INT then Stuck(TooManyLines)
               else ReadTail(tail, QUOTE, line + 1, text + [NEWLINE])
  {
    var input := QuotedByte(c) + tail;
    if c == NEWLINE {
      assert input[1..] == [NEWLINE] + tail;
      assert AfterLine(input[1..]) == tail;
    } else if c == 0 {
      ZeroDigits(input, tail);
    } else if c == QUOTE || c == BACKSLASH || c == RETURN {
      assert input[2..] == tail;
    } else {
      assert input[1..] == tail;
    }
  }

  /** Reading a quoted string gives it back and goes on right behind it, unless it takes the line count to its limit. */
  lemma {:induction false} ReadQuoted(s: seq<Byte>, rest: seq<Byte>, line: nat, text: seq<Byte>)
    ensures ReadTail(QuotedBody(s) + [QUOTE] + rest, QUOTE, line, text)
            == if Newlines(s) == 0 || line + Newlines(s) < MAX_INT then Text(text + s, rest, line + Newlines(s))
               else Stuck(TooManyLines)
    decreases |s|
  {
    hide QuotedByte;
    var input := QuotedBody(s) + [QUOTE] + rest;
    if s == [] {
      assert input[1..] == rest && text + s == text;
    } else {
      hide ReadTail;
      QuotedFirst(s);
      var tail := QuotedBody(s[1..]) + [QUOTE] + rest;
      assert input == QuotedByte(s[0]) + tail;
      assert (text + [s[0]]) + s[1..] == text + s;
      TailStart(s[1..], rest);
      ReadByte(s[0], tail, line, text);
      ReadQuoted(s[1..], rest, if s[0] == NEWLINE then line + 1 else line, text + [s[0]]);
    }
  }

  /** What follows a quoted newline is never a carriage return. */
  lemma TailStart(s: seq<Byte>, rest: seq<Byte>)
    ensures var tail := QuotedBody(s) + [QUOTE] + rest; tail[0] != RETURN
  {
    if s != [] {
      QuotedFirst(s);
    }
  }

  /** A zero byte is written with three digits, so a digit after it is read as itself. */
  lemma ZeroDigits(input: seq<Byte>, tail: seq<Byte>)
    requires input == [BACKSLASH, '0' as int, '0' as int, '0' as int] + tail
    ensures Digits(input[1..], 3) == 3 && ValueOf(input[1..][..3]) == 0 && input[4..] == tail
  {
    var d := input[1..];
    assert d[1..][0] == '0' as int && d[1..][1..][0] == '0' as int;
    assert Digits(d[1..][1..], 1) == 1;
    assert Digits(d[1..], 2) == 2;
    var z := d[..3];
    assert z == ['0' as int, '0' as int, '0' as int];
    assert z[..2] == ['0' as int, '0' as int] && z[..2][..1] == ['0' as int];
    assert ValueOf(z[..2][..1]) == 0;
    assert ValueOf(z[..2]) == 0;
  }

  /** The whole literal: opening quote, quoted bytes, closing quote. */
  lemma RoundTrip(s: seq<Byte>, rest: seq<Byte>, line: nat)
    ensures (Quote(s) + rest)[0] == QUOTE
    ensures ReadTail((Quote(s) + rest)[1..], QUOTE, line, []) == Text(s, rest, line + Newlines(s))
            <==> Newlines(s) == 0 || line + Newlines(s) < MAX_INT
  {
    ReadQuoted(s, rest, line, []);
    assert (Quote(s) + rest)[1..] == QuotedBody(s) + [QUOTE] + rest;
    assert [] + s == s;
  }

  // ---- the lexer as it runs

  datatype Token = String(text: seq<Byte>) | LexError(why: LexError)

  const EOZ := -1

  class Lexer {
    const input: seq<Byte>
    var pos: nat
    var linenumber: nat
    var buff: seq<Byte>

    constructor (chunk: seq<Byte>, line: nat)
      ensures input == chunk && pos == 0 && linenumber == line
    {
      input, pos, linenumber, buff := chunk, 0, line, [];
    }

    function Current(): int
      reads this
    {
      if pos < |input| then input[pos] else EOZ
    }

    method SaveAndNext()
      requires pos < |input|
      modifies this
      ensures buff == old(buff) + [input[old(pos)]] && pos == old(pos) + 1 && linenumber == old(linenumber)
    {
      buff := buff + [input[pos]];
      pos := pos + 1;
    }

    /** Skips a line end; `ok` unless the chunk has too many lines. */
    method IncLineNumber() returns (ok: bool)
      requires IsNewline(Current())
      modifies this
      ensures pos <= |input| && input[pos..] == AfterLine(old(input[pos..])) && buff == old(buff)
      ensures linenumber == old(linenumber) + 1 && ok == (linenumber < MAX_INT)
    {
      var was := Current();
      pos := pos + 1;
      if IsNewline(Current()) && Current() != was {
        pos := pos + 1;
      }
      linenumber := linenumber + 1;
      ok := linenumber < MAX_INT;
    }

    /** The reader at this point has exactly the rest of the literal before it. */
    ghost predicate Same(del: Byte, p0: nat, line0: nat)
      reads this
    {
      p0 <= |input| && pos <= |input| && buff != [] && buff[0] == del
      && ReadTail(input[p0..], del, line0, []) == ReadTail(input[pos..], del, linenumber, buff[1..])
    }

    method ReadString(del: Byte) returns (t: Token)
      requires pos < |input| && input[pos] == del && buff == []
      modifies this
      ensures match ReadTail(input[old(pos) + 1..], del, old(linenumber), [])
              case Text(text, rest, line) =>
                t == String(text) && pos <= |input| && input[pos..] == rest && linenumber == line
              case Stuck(why) => t == LexError(why)
    {
      SaveAndNext();
      ghost var p0, line0 := pos, linenumber;
      assert buff[1..] == [];
      while Current() != del
        invariant Same(del, p0, line0)
        decreases |input| - pos
      {
        if pos == |input| || IsNewline(Current()) {
          return LexError(Unfinished);
        }
        if Current() == BACKSLASH {
          var failed, why := ReadEscape(del, p0, line0);
          if failed {
            return LexError(why);
          }
        } else {
          ghost var was := buff;
          SaveAndNext();
          assert buff[1..] == was[1..] + [input[pos - 1]];
          assert input[pos - 1..][1..] == input[pos..];
        }
      }
      ghost var was := buff;
      SaveAndNext();
      assert input[pos - 1..][1..] == input[pos..];
      assert buff[1..|buff| - 1] == was[1..];
      t := String(buff[1..|buff| - 1]);
    }

    /** One backslash and what it stands for. */
    method ReadEscape(del: Byte, ghost p0: nat, ghost line0: nat) returns (failed: bool, why: LexError)
      requires Same(del, p0, line0) && pos < |input| && input[pos] == BACKSLASH && del != BACKSLASH
      modifies this
      ensures failed ==> ReadTail(input[p0..], del, line0, []) == Stuck(why)
      ensures !failed ==> Same(del, p0, line0) && pos > old(pos)
    {
      ghost var rest, was := input[pos..], buff;
      failed, why := false, Unfinished;
      pos := pos + 1;
      assert rest[1..] == input[pos..];
      if pos == |input| {
        failed := true;
      } else if Escape(input[pos]) != -1 {
        buff := buff + [Escape(input[pos])];
        pos := pos + 1;
        assert rest[2..] == input[pos..] && buff[1..] == was[1..] + [Escape(rest[1])];
      } else if IsNewline(Current()) {
        buff := buff + [NEWLINE];
        assert buff[1..] == was[1..] + [NEWLINE];
        var ok := IncLineNumber();
        if !ok {
          failed, why := true, TooManyLines;
        }
      } else if !IsDigit(Current()) {
        SaveAndNext();
        assert rest[2..] == input[pos..] && buff[1..] == was[1..] + [rest[1]];
      } else {
        var c := ReadDecimal();
        ghost var n := Digits(rest[1..], 3);
        assert rest[1 + n..] == input[pos..];
        if c > 255 {
          failed, why := true, EscapeTooLarge;
        } else {
          buff := buff + [c];
          assert buff[1..] == was[1..] + [c];
        }
      }
    }

    method ReadDecimal() returns (c: nat)
      requires pos < |input| && IsDigit(input[pos])
      modifies this`pos
      ensures var n := Digits(input[old(pos)..], 3); pos == old(pos) + n && c == ValueOf(input[old(pos)..][..n])
    {
      ghost var rest := input[pos..];
      var i := 0;
      c := 0;
      while true
        invariant i < 3 && pos == old(pos) + i < |input| && IsDigit(input[pos]) && i < Digits(rest, 3)
        invariant Digits(rest, 3) == i + Digits(input[pos..], 3 - i)
        invariant c == ValueOf(rest[..i])
        decreases 3 - i
      {
        var d: nat := Current() - '0' as int;
        c := 10 * c + d;
        assert rest[..i + 1][..i] == rest[..i] && rest[i] == input[pos];
        assert input[pos..][1..] == input[pos + 1..];
        pos := pos + 1;
        i := i + 1;
        if !(i < 3 && IsDigit(Current())) {
          return;
        }
      }
    }
  }
}
