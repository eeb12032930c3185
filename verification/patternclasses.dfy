/** What the classes of a pattern stand for: how they are written, and which bytes they then match. */
module PatternClasses {
  import opened Bytes
  import opened Pattern

  datatype Part = One(c: Byte) | Range(lo: Byte, hi: Byte) | Letter(cl: Byte)

  datatype Written = Any | Itself(c: Byte) | Named(cl: Byte) | Bracket(negated: bool, parts: seq<Part>)

  /** The letters that name classes. */
  const NAMES: set<char> := {'a', 'c', 'd', 'l', 'p', 's', 'u', 'w', 'x', 'z'}

  /** The bytes of the classes, by their codes in the C locale. */
  ghost predicate Member(letter: Byte, c: Byte) {
    if letter == 'a' as int then 65 <= c <= 90 || 97 <= c <= 122
    else if letter == 'c' as int then c <= 31 || c == 127
    else if letter == 'd' as int then 48 <= c <= 57
    else if letter == 'l' as int then 97 <= c <= 122
    else if letter == 'p' as int then 33 <= c <= 47 || 58 <= c <= 64 || 91 <= c <= 96 || 123 <= c <= 126
    else if letter == 's' as int then 9 <= c <= 13 || c == 32
    else if letter == 'u' as int then 65 <= c <= 90
    else if letter == 'w' as int then 48 <= c <= 57 || 65 <= c <= 90 || 97 <= c <= 122
    else if letter == 'x' as int then 48 <= c <= 57 || 65 <= c <= 70 || 97 <= c <= 102
    else letter == 'z' as int && c == 0
  }

  /** The byte after a percent sign: a class, in capitals all but the class, or itself. */
  ghost predicate Stands(cl: Byte, c: Byte) {
    if cl as char in NAMES then Member(cl, c)
    else if cl < 224 && (cl + 32) as char in NAMES then !Member(cl + 32, c)
    else c == cl
  }

  ghost predicate InPart(part: Part, c: Byte) {
    match part
    case One(x) => c == x
    case Range(lo, hi) => lo <= c <= hi
    case Letter(cl) => Stands(cl, c)
  }

  ghost predicate InParts(parts: seq<Part>, c: Byte) { exists i :: 0 <= i < |parts| && InPart(parts[i], c) }

  ghost predicate Covers(k: Written, c: Byte) {
    match k
    case Any => true
    case Itself(x) => c == x
    case Named(cl) => Stands(cl, c)
    case Bracket(negated, parts) => InParts(parts, c) != negated
  }

  // ---- how they are written

  function PrintPart(part: Part): (t: seq<Byte>)
    ensures |t| > 0
  {
    match part
    case One(c) => [c]
    case Range(lo, hi) => [lo, '-' as int, hi]
    case Letter(cl) => [ESC, cl]
  }

  function PrintParts(parts: seq<Part>): seq<Byte> {
    if parts == [] then [] else PrintPart(parts[0]) + PrintParts(parts[1..])
  }

  function Print(k: Written): (t: seq<Byte>)
    ensures |t| > 0
  {
    match k
    case Any => ['.' as int]
    case Itself(c) => [c]
    case Named(cl) => [ESC, cl]
    case Bracket(negated, parts) =>
      (if negated then ['[' as int, '^' as int] else ['[' as int]) + PrintParts(parts) + [']' as int]
  }

  /** A closing bracket may be the first character of a set only. */
  predicate Good(part: Part, first: bool) {
    match part
    case One(c) => c != 0 && c != ESC && (c == ']' as int ==> first)
    case Range(lo, hi) =>
      lo != 0 && lo != ESC && (lo == ']' as int ==> first) && hi != 0 && hi != ESC && hi != ']' as int
    case Letter(cl) => cl != 0
  }

  /** The first part would be read as a range. */
  predicate Dashed(parts: seq<Part>) {
    && |parts| > 1 && parts[0].One? && PrintPart(parts[1])[0] == '-' as int
    && (|parts| > 2 || parts[1].Range?)
  }

  predicate GoodParts(parts: seq<Part>, first: bool) {
    parts == [] || (Good(parts[0], first) && !Dashed(parts) && GoodParts(parts[1..], false))
  }

  predicate GoodClass(k: Written) {
    match k
    case Any => true
    case Itself(c) => c != 0 && c != ESC && c != '[' as int && c != '.' as int
    case Named(cl) => cl != 0
    case Bracket(negated, parts) =>
      parts != [] && GoodParts(parts, true) && (PrintPart(parts[0])[0] == '^' as int ==> negated)
  }

  /** The text stands in the pattern at `p`, and something follows it. */
  predicate Has(pat: seq<Byte>, p: nat, text: seq<Byte>) { p + |text| < |pat| && pat[p..p + |text|] == text }

  // ---- what the matcher makes of them

  lemma LetterStands(c: Byte, cl: Byte)
    ensures MatchClass(c, cl) <==> Stands(cl, c)
  {
  }

  lemma HasSplit(pat: seq<Byte>, p: nat, t: seq<Byte>, u: seq<Byte>)
    requires Has(pat, p, t + u)
    ensures Has(pat, p, t) && Has(pat, p + |t|, u) && p + |t| + |u| < |pat|
    ensures forall i :: 0 <= i < |t| ==> pat[p + i] == t[i]
    ensures u != [] ==> pat[p + |t|] == u[0]
  {
    var all := pat[p..p + |t + u|];
    assert all[..|t|] == t && all[|t|..] == u;
    forall i | 0 <= i < |t| ensures pat[p + i] == t[i] {
      assert all[i] == (t + u)[i];
    }
    if u != [] {
      assert all[|t|] == (t + u)[|t|];
    }
  }

  /** The part's bytes stand at `q`. */
  predicate Stood(pat: seq<Byte>, q: nat, part: Part) {
    q + |PrintPart(part)| < |pat| && forall i :: 0 <= i < |PrintPart(part)| ==> pat[q + i] == PrintPart(part)[i]
  }

  /** The part at the head of the text, and what follows it. */
  lemma Heads(pat: seq<Byte>, q: nat, parts: seq<Part>)
    requires parts != [] && Has(pat, q, PrintParts(parts) + [']' as int])
    ensures var n := |PrintPart(parts[0])|;
            && Stood(pat, q, parts[0]) && Has(pat, q + n, PrintParts(parts[1..]) + [']' as int])
            && |PrintParts(parts)| == n + |PrintParts(parts[1..])| && q + |PrintParts(parts)| + 1 < |pat|
            && pat[q + n] == (if |parts| == 1 then ']' as int else PrintPart(parts[1])[0])
            && (|parts| == 1 ==> PrintParts(parts[1..]) == [])
            && (|parts| == 2 ==> |PrintParts(parts[1..])| == |PrintPart(parts[1])|)
  {
    hide PrintPart, Has;
    var t, u := PrintPart(parts[0]), PrintParts(parts[1..]) + [']' as int];
    assert PrintParts(parts) + [']' as int] == t + u;
    HasSplit(pat, q, t, u);
    if |parts| > 1 {
      assert parts[1..][0] == parts[1];
    }
    if |parts| == 2 {
      OnePart(parts[1]);
      assert parts[1..] == [parts[1]];
    }
  }

  lemma OnePart(part: Part)
    ensures PrintParts([part]) == PrintPart(part)
  {
    assert [part][1..] == [];
  }

  lemma EndStep(pat: seq<Byte>, q: nat, part: Part, first: bool)
    requires Terminated(pat) && Good(part, first) && Stood(pat, q, part)
    ensures var n := |PrintPart(part)|;
            SetEnd(pat, q) == if pat[q + n] == ']' as int then At(q + n + 1) else SetEnd(pat, q + n)
  {
    var t := PrintPart(part);
    assert pat[q + 0] == t[0];
    if part.Range? {
      assert pat[q + 1] == t[1] && pat[q + 2] == t[2];
      assert SetEnd(pat, q) == SetEnd(pat, q + 2);
    } else if part.Letter? {
      assert pat[q + 1] == t[1];
    }
  }

  lemma SetStep(pat: seq<Byte>, c: Byte, q: nat, ec: nat, part: Part, first: bool)
    requires Good(part, first) && Stood(pat, q, part) && q + |PrintPart(part)| <= ec < |pat|
    requires part.One? ==> pat[q + 1] != '-' as int || q + 2 >= ec
    ensures InSet(pat, c, q, ec) <==> InPart(part, c) || InSet(pat, c, q + |PrintPart(part)|, ec)
  {
    hide Stands, MatchClass;
    var t := PrintPart(part);
    assert pat[q + 0] == t[0];
    if part.Range? {
      assert pat[q + 1] == t[1] && pat[q + 2] == t[2];
    } else if part.Letter? {
      assert pat[q + 1] == t[1];
      LetterStands(c, part.cl);
    }
  }

  lemma {:induction false} EndReads(pat: seq<Byte>, q: nat, parts: seq<Part>, first: bool)
    requires Terminated(pat) && parts != [] && GoodParts(parts, first) && Has(pat, q, PrintParts(parts) + [']' as int])
    ensures SetEnd(pat, q) == At(q + |PrintParts(parts)| + 1)
    decreases |parts|
  {
    hide Has, PrintParts, SetEnd, Stood;
    Heads(pat, q, parts);
    EndStep(pat, q, parts[0], first);
    if |parts| > 1 {
      assert parts[1..][0] == parts[1] && Good(parts[1], false);
      EndReads(pat, q + |PrintPart(parts[0])|, parts[1..], false);
    }
  }

  lemma {:induction false} SetReads(pat: seq<Byte>, c: Byte, q: nat, parts: seq<Part>, first: bool)
    requires Terminated(pat) && GoodParts(parts, first) && Has(pat, q, PrintParts(parts) + [']' as int])
    ensures InSet(pat, c, q, q + |PrintParts(parts)|) <==> InParts(parts, c)
    decreases |parts|
  {
    hide InParts, InPart, Stood;
    if parts == [] {
      NoParts(c);
    } else {
      hide Has, PrintParts, InSet;
      Heads(pat, q, parts);
      SetStep(pat, c, q, q + |PrintParts(parts)|, parts[0], first);
      SetReads(pat, c, q + |PrintPart(parts[0])|, parts[1..], false);
      InHead(parts, c);
    }
  }

  lemma NoParts(c: Byte)
    ensures !InParts([], c)
  {
  }

  lemma InHead(parts: seq<Part>, c: Byte)
    requires parts != []
    ensures InParts(parts, c) <==> InPart(parts[0], c) || InParts(parts[1..], c)
  {
    forall i | 0 <= i < |parts[1..]| && InPart(parts[1..][i], c) ensures InParts(parts, c) {
      assert InPart(parts[i + 1], c);
    }
    forall i | 0 < i < |parts| && InPart(parts[i], c) ensures InParts(parts[1..], c) {
      assert InPart(parts[1..][i - 1], c);
    }
  }

  /** The body of a set begins behind the bracket and the caret. */
  lemma Body(pat: seq<Byte>, p: nat, k: Written) returns (q: nat)
    requires k.Bracket? && GoodClass(k) && Has(pat, p, Print(k))
    ensures q == (if k.negated then p + 2 else p + 1) && pat[p] == '[' as int
    ensures q + |PrintParts(k.parts)| + 1 == p + |Print(k)| < |pat| && Has(pat, q, PrintParts(k.parts) + [']' as int])
    ensures pat[p + 1] == '^' as int <==> k.negated
  {
    hide PrintParts, PrintPart, Good, Dashed;
    var body := PrintParts(k.parts) + [']' as int];
    q := if k.negated then p + 2 else p + 1;
    if k.negated {
      HasSplit(pat, p, ['[' as int, '^' as int], body);
    } else {
      HasSplit(pat, p, ['[' as int], body);
    }
    Heads(pat, q, k.parts);
  }

  lemma BracketReads(pat: seq<Byte>, p: nat, k: Written, c: Byte)
    requires Terminated(pat) && GoodClass(k) && k.Bracket? && Has(pat, p, Print(k))
    ensures pat[p] == '[' as int && IsClass(pat, p, p + |Print(k)|)
    ensures BracketClass(pat, c, p, p + |Print(k)| - 1) <==> Covers(k, c)
  {
    hide InPart, SetEnd, InSet, Stands, InParts, Has, PrintParts, PrintPart, Print, Good, Dashed, Stood;
    var q := Body(pat, p, k);
    EndReads(pat, q, k.parts, true);
    SetReads(pat, c, q, k.parts, true);
  }

  /** A class that is written in a pattern is found to end where it does, and matches just the bytes it stands for. */
  lemma {:induction false} ClassReads(pat: seq<Byte>, p: nat, k: Written, c: Byte)
    requires Terminated(pat) && GoodClass(k) && Has(pat, p, Print(k))
    ensures IsClass(pat, p, p + |Print(k)|)
    ensures SingleMatch(pat, c, p, p + |Print(k)|) <==> Covers(k, c)
  {
    hide InParts, SetEnd, InSet, Stands, GoodParts, MatchClass;
    var ep := p + |Print(k)|;
    assert pat[p] == pat[p..ep][0];
    if k.Bracket? {
      BracketReads(pat, p, k, c);
    } else if k.Named? {
      assert pat[p + 1] == pat[p..ep][1];
      LetterStands(c, k.cl);
    }
  }

  lemma {:induction false} SetInString(pat: seq<Byte>, p: nat)
    requires Terminated(pat) && p < |pat| && SetEnd(pat, p).At?
    ensures forall k :: p <= k < SetEnd(pat, p).ep ==> pat[k] != 0
    decreases |pat| - p
  {
    var q := if pat[p] == ESC && pat[p + 1] != 0 then p + 2 else p + 1;
    if pat[q] != ']' as int {
      SetInString(pat, q);
    }
  }

  /** No class reaches over the end of the pattern, its first zero byte; what would is malformed. */
  lemma {:induction false} ClassInString(pat: seq<Byte>, p: nat)
    requires Terminated(pat) && p < |pat| && pat[p] != 0
    ensures match ClassEnd(pat, p)
            case At(ep) => forall k :: p <= k < ep ==> pat[k] != 0
            case Malformed(why) => why == if pat[p] == ESC then EndsWithPercent else MissingBracket
  {
    if pat[p] == '[' as int {
      var q := if pat[p + 1] == '^' as int then p + 2 else p + 1;
      if ClassEnd(pat, p).At? {
        SetInString(pat, q);
      } else {
        SetMissing(pat, q);
      }
    }
  }

  lemma {:induction false} SetMissing(pat: seq<Byte>, p: nat)
    requires Terminated(pat) && p < |pat| && SetEnd(pat, p).Malformed?
    ensures SetEnd(pat, p) == Malformed(MissingBracket)
    decreases |pat| - p
  {
    if pat[p] != 0 {
      SetMissing(pat, if pat[p] == ESC && pat[p + 1] != 0 then p + 2 else p + 1);
    }
  }
}
