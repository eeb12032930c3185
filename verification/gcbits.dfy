/** The mark byte of an object, and the tests and updates the collector makes on it (lgc.h, lgc.cc). */
module GcBits {
  import opened GcState

  const WHITEBITS: bv8 := 3
  const BLACKMASK: bv8 := 4
  const FIXEDMASK: bv8 := 32

  function ColorBits(c: Color): bv8 {
    match c
    case White0 => 1
    case White1 => 2
    case Gray => 0
    case Black => 4
  }

  /** Bits 3, 4 and 6 are the business of userdata, weak tables and the main thread. */
  predicate OtherBits(rest: bv8) { rest & (WHITEBITS | BLACKMASK | FIXEDMASK) == 0 }

  function MarkByte(c: Color, fixed: bool, rest: bv8): bv8 {
    ColorBits(c) | (if fixed then FIXEDMASK else 0) | rest
  }

  /** The state's own byte: the current white, and the fixed bit that protects fixed objects from sweeps. */
  function CurrentWhite(white: Color): bv8 { ColorBits(white) | FIXEDMASK }

  function OtherWhite(white: Color): bv8 { CurrentWhite(white) ^ WHITEBITS }

  /** Turning the whites over is one exclusive or. */
  lemma FlipBits(white: Color)
    requires IsWhite(white)
    ensures OtherWhite(white) == CurrentWhite(Other(white))
  {
  }

  /** The sweep's test keeps an object exactly if it does not have the other white, or is fixed. */
  lemma SweepTest(white: Color, c: Color, fixed: bool, rest: bv8)
    requires IsWhite(white) && OtherBits(rest)
    ensures (MarkByte(c, fixed, rest) ^ WHITEBITS) & OtherWhite(white) != 0 <==> c != Other(white) || fixed
  {
  }

  lemma DeadTest(white: Color, c: Color, fixed: bool, rest: bv8)
    requires IsWhite(white) && OtherBits(rest)
    ensures MarkByte(c, fixed, rest) & OtherWhite(white) & WHITEBITS != 0 <==> c == Other(white)
  {
  }

  /** Making an object white clears its old colour and touches nothing else. */
  lemma MakeWhite(white: Color, c: Color, fixed: bool, rest: bv8)
    requires IsWhite(white) && OtherBits(rest)
    ensures (MarkByte(c, fixed, rest) & !(BLACKMASK | WHITEBITS)) | (CurrentWhite(white) & WHITEBITS)
              == MarkByte(white, fixed, rest)
  {
  }

  /** Bringing a dead object back flips its white bits to the current white. */
  lemma ChangeWhite(white: Color, fixed: bool, rest: bv8)
    requires IsWhite(white) && OtherBits(rest)
    ensures MarkByte(Other(white), fixed, rest) ^ WHITEBITS == MarkByte(white, fixed, rest)
  {
  }

  /** The colour a mark byte stands for. */
  function ColorOf(m: bv8): Color {
    if m & 1 != 0 then White0 else if m & 2 != 0 then White1 else if m & BLACKMASK != 0 then Black else Gray
  }

  lemma ColorOfByte(c: Color, fixed: bool, rest: bv8)
    requires OtherBits(rest)
    ensures ColorOf(MarkByte(c, fixed, rest)) == c
  {
  }

  /** An object is white if either white bit is set. */
  lemma WhiteTest(c: Color, fixed: bool, rest: bv8)
    requires OtherBits(rest)
    ensures MarkByte(c, fixed, rest) & WHITEBITS != 0 <==> IsWhite(c)
  {
  }

  // ---- the tests and updates themselves

  method TestWhite(c: Color, fixed: bool) returns (b: bool)
    ensures b == IsWhite(c)
  {
    WhiteTest(c, fixed, 0);
    b := MarkByte(c, fixed, 0) & WHITEBITS != 0;
  }

  method TestDead(white: Color, c: Color, fixed: bool) returns (b: bool)
    requires IsWhite(white)
    ensures b == (c == Other(white))
  {
    DeadTest(white, c, fixed, 0);
    b := MarkByte(c, fixed, 0) & OtherWhite(white) & WHITEBITS != 0;
  }

  method TestSpared(white: Color, c: Color, fixed: bool) returns (b: bool)
    requires IsWhite(white)
    ensures b == (c != Other(white) || fixed)
  {
    SweepTest(white, c, fixed, 0);
    b := (MarkByte(c, fixed, 0) ^ WHITEBITS) & OtherWhite(white) != 0;
  }

  method Whiten(white: Color, c: Color, fixed: bool) returns (c1: Color)
    requires IsWhite(white)
    ensures c1 == white
  {
    MakeWhite(white, c, fixed, 0);
    ColorOfByte(white, fixed, 0);
    c1 := ColorOf((MarkByte(c, fixed, 0) & !(BLACKMASK | WHITEBITS)) | (CurrentWhite(white) & WHITEBITS));
  }

  /** Only for an object with the other white. */
  method Revive(white: Color, c: Color, fixed: bool) returns (c1: Color)
    requires IsWhite(white) && c == Other(white)
    ensures c1 == white
  {
    ChangeWhite(white, fixed, 0);
    ColorOfByte(white, fixed, 0);
    c1 := ColorOf(MarkByte(c, fixed, 0) ^ WHITEBITS);
  }

  method Flip(white: Color) returns (white1: Color)
    requires IsWhite(white)
    ensures white1 == Other(white)
  {
    FlipBits(white);
    ColorOfByte(Other(white), true, 0);
    white1 := ColorOf(OtherWhite(white));
  }
}
