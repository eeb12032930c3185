/** What can be written between the quotes of a string literal, and which byte each piece stands for (llex.cc). */
module Literals {
  import opened Bytes
  import opened Quoted

  /** A byte as it is, a byte behind a backslash, a control code by its letter, a code by its decimal digits, or a line
      end behind a backslash: one newline character, or two different ones. */
  datatype Piece =
    | Plain(c: Byte)
    | Backslashed(c: Byte)
    | Control(k: Byte)
    | Decimal(n: nat, width: nat)
    | Line(first: Byte, pair: bool)

  /** The letters of the codes from 7 to 13. */
  const LETTERS: seq<char> := "abtnvfr"

  function Digit(d: nat): Byte
    requires d < 10
  {
    48 + d
  }

  /** The digits of a number, the higher ones first. */
  function Decimals(n: nat, width: nat): seq<Byte>
    requires 1 <= width <= 3 && n < 1000 && (width < 3 ==> n < 100) && (width < 2 ==> n < 10)
  {
    if width == 1 then [Digit(n)]
    else if width == 2 then [Digit(n / 10), Digit(n % 10)]
    else [Digit(n / 100), Digit(n / 10 % 10), Digit(n % 10)]
  }

  predicate WellSpelled(p: Piece, del: Byte) {
    match p
    case Plain(c) => c != del && c != 10 && c != 13 && c != 92
    case Backslashed(c) => c as char !in LETTERS && c != 10 && c != 13 && !(48 <= c <= 57)
    case Control(k) => 7 <= k <= 13
    case Decimal(n, width) => 1 <= width <= 3 && n < 1000 && (width < 3 ==> n < 100) && (width < 2 ==> n < 10)
    case Line(first, _) => first == 10 || first == 13
  }

  function Spelling(p: Piece, del: Byte): (t: seq<Byte>)
    requires WellSpelled(p, del)
    ensures t != []
  {
    match p
    case Plain(c) => [c]
    case Backslashed(c) => [92, c]
    case Control(k) => [92, LETTERS[k - 7] as Byte]
    case Decimal(n, width) => [92] + Decimals(n, width)
    case Line(first, pair) => if pair then [92, first, 23 - first] else [92, first]
  }

  /** What follows does not belong to the piece. */
  predicate EndsHere(p: Piece, tail: seq<Byte>) {
    match p
    case Decimal(_, width) => width == 3 || tail == [] || !(48 <= tail[0] <= 57)
    case Line(first, pair) => pair || tail == [] || tail[0] != 23 - first
    case _ => true
  }

  /** The byte it stands for; a decimal number may be none. */
  function Meaning(p: Piece): int {
    match p
    case Plain(c) => c
    case Backslashed(c) => c
    case Control(k) => k
    case Decimal(n, _) => n
    case Line(_, _) => 10
  }

  lemma {:induction false} DigitsAre(d: seq<Byte>, tail: seq<Byte>, max: nat)
    requires |d| <= max && forall i :: 0 <= i < |d| ==> IsDigit(d[i])
    requires |d| == max || tail == [] || !IsDigit(tail[0])
    ensures Digits(d + tail, max) == |d|
    decreases |d|
  {
    if d != [] {
      assert (d + tail)[1..] == d[1..] + tail;
      DigitsAre(d[1..], tail, max - 1);
    } else {
      assert d + tail == tail;
    }
  }

  lemma ValueOfOne(d: seq<Byte>, c: Byte)
    requires forall i :: 0 <= i < |d + [c]| ==> IsDigit((d + [c])[i])
    ensures forall i :: 0 <= i < |d| ==> IsDigit(d[i])
    ensures IsDigit(c) && ValueOf(d + [c]) == 10 * ValueOf(d) + (c - 48)
  {
    var all := d + [c];
    assert forall i :: 0 <= i < |d| ==> d[i] == all[i];
    assert all[|d|] == c && all[..|d|] == d;
  }

  lemma ValueIs(n: nat, width: nat)
    requires 1 <= width <= 3 && n < 1000 && (width < 3 ==> n < 100) && (width < 2 ==> n < 10)
    ensures forall i :: 0 <= i < width ==> IsDigit(Decimals(n, width)[i])
    ensures ValueOf(Decimals(n, width)) == n
  {
    hide ValueOf;
    var d := Decimals(n, width);
    assert ValueOf([]) == 0 by { NoDigits(); }
    ValueOfOne([], d[0]);
    assert [] + [d[0]] == [d[0]];
    if width > 1 {
      ValueOfOne([d[0]], d[1]);
      assert [d[0]] + [d[1]] == [d[0], d[1]];
    }
    if width > 2 {
      ValueOfOne([d[0], d[1]], d[2]);
      assert [d[0], d[1]] + [d[2]] == d;
    }
  }

  lemma NoDigits()
    ensures ValueOf([]) == 0
  {
  }

  lemma DecimalReads(n: nat, width: nat, tail: seq<Byte>, del: Byte, line: nat, text: seq<Byte>)
    requires WellSpelled(Decimal(n, width), del) && EndsHere(Decimal(n, width), tail) && del != 92
    ensures ReadTail([92] + Decimals(n, width) + tail, del, line, text)
            == if n > 255 then Stuck(EscapeTooLarge) else ReadTail(tail, del, line, text + [n])
  {
    var d := Decimals(n, width);
    var input := [92] + d + tail;
    hide Decimals, ValueOf, Digits;
    ValueIs(n, width);
    DigitsAre(d, tail, 3);
    assert input[1..] == d + tail && (d + tail)[..width] == d && input[1 + width..] == tail;
    assert input[1] == d[0] && IsDigit(d[0]);
  }

  lemma LineReads(first: Byte, pair: bool, tail: seq<Byte>, del: Byte, line: nat, text: seq<Byte>)
    requires WellSpelled(Line(first, pair), del) && EndsHere(Line(first, pair), tail) && del != 92
    ensures ReadTail(Spelling(Line(first, pair), del) + tail, del, line, text)
            == if line + 1 >= MAX_INT then Stuck(TooManyLines) else ReadTail(tail, del, line + 1, text + [10])
  {
    var input := Spelling(Line(first, pair), del) + tail;
    var after := input[1..];
    assert after[0] == first && after == (if pair then [first, 23 - first] else [first]) + tail;
    assert AfterLine(after) == tail;
  }

  /** Every piece is read as the byte it stands for, and reading goes on behind it. */
  lemma PieceReads(p: Piece, tail: seq<Byte>, del: Byte, line: nat, text: seq<Byte>)
    requires WellSpelled(p, del) && EndsHere(p, tail) && del != 92
    ensures ReadTail(Spelling(p, del) + tail, del, line, text)
            == if Meaning(p) > 255 then Stuck(EscapeTooLarge)
               else if !p.Line? then ReadTail(tail, del, line, text + [Meaning(p)])
               else if line + 1 >= MAX_INT then Stuck(TooManyLines)
               else ReadTail(tail, del, line + 1, text + [10])
  {
    var input := Spelling(p, del) + tail;
    match p
    case Plain(c) => assert input[1..] == tail;
    case Backslashed(c) => assert input[2..] == tail;
    case Control(k) =>
      ControlIs(k);
      assert input[2..] == tail;
    case Decimal(n, width) => DecimalReads(n, width, tail, del, line, text);
    case Line(first, pair) => LineReads(first, pair, tail, del, line, text);
  }

  lemma ControlIs(k: Byte)
    requires 7 <= k <= 13
    ensures Escape(LETTERS[k - 7] as Byte) == k
  {
    assert LETTERS[0] == 'a' && LETTERS[1] == 'b' && LETTERS[2] == 't' && LETTERS[3] == 'n';
    assert LETTERS[4] == 'v' && LETTERS[5] == 'f' && LETTERS[6] == 'r';
  }

  // ---- whole literals

  predicate IsDelimiter(del: Byte) { del == 34 || del == 39 }

  /** Every piece is well spelled and stands for a byte. */
  predicate AllWell(ps: seq<Piece>, del: Byte) {
    forall i :: 0 <= i < |ps| ==> WellSpelled(ps[i], del) && Meaning(ps[i]) <= 255
  }

  function SpellAll(ps: seq<Piece>, del: Byte): seq<Byte>
    requires AllWell(ps, del)
  {
    if ps == [] then [] else Spelling(ps[0], del) + SpellAll(ps[1..], del)
  }

  /** No piece can be taken for a part of the one before. */
  predicate Apart(ps: seq<Piece>, del: Byte)
    requires AllWell(ps, del)
  {
    ps == [] || (EndsHere(ps[0], SpellAll(ps[1..], del) + [del]) && Apart(ps[1..], del))
  }

  function Meanings(ps: seq<Piece>, del: Byte): seq<Byte>
    requires AllWell(ps, del)
  {
    if ps == [] then [] else [Meaning(ps[0])] + Meanings(ps[1..], del)
  }

  function Lines(ps: seq<Piece>): nat {
    if ps == [] then 0 else (if ps[0].Line? then 1 else 0) + Lines(ps[1..])
  }

  /** A literal stands for the bytes its pieces stand for, its line ends are counted, and what is behind its closing
      quote is left; it fails only if the line counter runs full. */
  lemma {:induction false} LiteralReads(ps: seq<Piece>, rest: seq<Byte>, del: Byte, line: nat, text: seq<Byte>)
    requires IsDelimiter(del) && AllWell(ps, del) && Apart(ps, del)
    ensures ReadTail(SpellAll(ps, del) + [del] + rest, del, line, text)
            == if Lines(ps) == 0 || line + Lines(ps) < MAX_INT
               then Text(text + Meanings(ps, del), rest, line + Lines(ps)) else Stuck(TooManyLines)
    decreases |ps|
  {
    hide ReadTail, Spelling, EndsHere, WellSpelled;
    if ps == [] {
      Closed(rest, del, line, text);
      assert SpellAll(ps, del) + [del] + rest == [del] + rest && text + Meanings(ps, del) == text;
    } else {
      hide SpellAll, Meanings;
      FirstPiece(ps, rest, del, text);
      var p, ps' := ps[0], ps[1..];
      PieceReads(p, SpellAll(ps', del) + [del] + rest, del, line, text);
      LiteralReads(ps', rest, del, if p.Line? then line + 1 else line, text + [Meaning(p)]);
    }
  }

  lemma FirstPiece(ps: seq<Piece>, rest: seq<Byte>, del: Byte, text: seq<Byte>)
    requires ps != [] && AllWell(ps, del) && Apart(ps, del)
    ensures var tail := SpellAll(ps[1..], del) + [del] + rest;
            SpellAll(ps, del) + [del] + rest == Spelling(ps[0], del) + tail && EndsHere(ps[0], tail)
    ensures (text + [Meaning(ps[0])]) + Meanings(ps[1..], del) == text + Meanings(ps, del)
  {
    hide Spelling, EndsHere, WellSpelled;
    EndsStill(ps[0], SpellAll(ps[1..], del) + [del], rest);
  }

  lemma Closed(rest: seq<Byte>, del: Byte, line: nat, text: seq<Byte>)
    ensures ReadTail([del] + rest, del, line, text) == Text(text, rest, line)
  {
    assert ([del] + rest)[1..] == rest;
  }

  lemma EndsStill(p: Piece, next: seq<Byte>, rest: seq<Byte>)
    requires next != [] && EndsHere(p, next)
    ensures EndsHere(p, next + rest)
  {
  }

  /** Where a literal cannot end: at the end of the input, also behind a backslash, and at a bare line end. */
  lemma Unclosed(input: seq<Byte>, del: Byte, line: nat, text: seq<Byte>)
    requires IsDelimiter(del)
    requires input == [] || input == [92] || input[0] == 10 || input[0] == 13
    ensures ReadTail(input, del, line, text) == Stuck(Unfinished)
  {
  }
}
