/** Patterns: character classes, and matching with backtracking as a function over immutable captures (lstrlib.cc). */
module Pattern {
  import opened Bytes

  const ESC: Byte := '%' as int

  const MAXCAPTURES := 32
  const UNFINISHED := -1
  const POSITION := -2

  datatype Failure =
    | EndsWithPercent
    | MissingBracket
    | UnbalancedPattern
    | MissingSet
    | TooManyCaptures
    | InvalidCapture
    | InvalidPatternCapture

  datatype Cap = Cap(init: nat, len: int)

  datatype End = At(ep: nat) | Malformed(why: Failure)

  datatype Outcome = Fail | Done(e: nat, caps: seq<Cap>) | Raise(error: Failure)

  /** A C string: the pattern is what comes before its first zero. */
  predicate Terminated(pat: seq<Byte>) { |pat| > 0 && pat[|pat| - 1] == 0 }

  // ---- single characters

  predicate IsLower(c: Byte) { 'a' as int <= c <= 'z' as int }
  predicate IsUpper(c: Byte) { 'A' as int <= c <= 'Z' as int }
  predicate IsAlpha(c: Byte) { IsLower(c) || IsUpper(c) }
  predicate IsAlnum(c: Byte) { IsAlpha(c) || IsDigit(c) }
  predicate IsCntrl(c: Byte) { c < 32 || c == 127 }
  predicate IsSpace(c: Byte) { c == 32 || 9 <= c <= 13 }
  predicate IsPunct(c: Byte) { 32 < c < 127 && !IsAlnum(c) }
  predicate IsXdigit(c: Byte) { IsDigit(c) || 'a' as int <= c <= 'f' as int || 'A' as int <= c <= 'F' as int }

  function ToLower(c: Byte): Byte { if IsUpper(c) then c + 32 else c }

  /** The class a letter names; `None` for a character that stands for itself. */
  function Class(c: Byte, letter: Byte): (r: (bool, bool)) {
    if letter == 'a' as int then (true, IsAlpha(c))
    else if letter == 'c' as int then (true, IsCntrl(c))
    else if letter == 'd' as int then (true, IsDigit(c))
    else if letter == 'l' as int then (true, IsLower(c))
    else if letter == 'p' as int then (true, IsPunct(c))
    else if letter == 's' as int then (true, IsSpace(c))
    else if letter == 'u' as int then (true, IsUpper(c))
    else if letter == 'w' as int then (true, IsAlnum(c))
    else if letter == 'x' as int then (true, IsXdigit(c))
    else if letter == 'z' as int then (true, c == 0)
    else (false, false)
  }

  predicate MatchClass(c: Byte, cl: Byte) {
    var (named, res) := Class(c, ToLower(cl));
    if !named then cl == c else if IsLower(cl) then res else !res
  }

  /** Where the class that starts at `p` ends: one character, an escape, or a set in brackets. */
  function ClassEnd(pat: seq<Byte>, p: nat): (e: End)
    requires Terminated(pat) && p < |pat| && pat[p] != 0
    ensures e.At? ==> p < e.ep < |pat|
  {
    if pat[p] == ESC then
      if pat[p + 1] == 0 then Malformed(EndsWithPercent) else At(p + 2)
    else if pat[p] == '[' as int then
      SetEnd(pat, if pat[p + 1] == '^' as int then p + 2 else p + 1)
    else At(p + 1)
  }

  /** The first character of a set is always part of it, even a closing bracket. */
  function SetEnd(pat: seq<Byte>, p: nat): (e: End)
    requires Terminated(pat) && p < |pat|
    ensures e.At? ==> p + 1 < e.ep < |pat| && pat[e.ep - 1] == ']' as int
    decreases |pat| - p
  {
    if pat[p] == 0 then Malformed(MissingBracket)
    else
      var q := if pat[p] == ESC && pat[p + 1] != 0 then p + 2 else p + 1;
      if pat[q] == ']' as int then At(q + 1) else SetEnd(pat, q)
  }

  /** The ranges, classes and characters from `q` up to the closing bracket. */
  predicate InSet(pat: seq<Byte>, c: Byte, q: nat, ec: nat)
    requires ec < |pat|
    decreases ec - q
  {
    if q >= ec then false
    else if pat[q] == ESC then MatchClass(c, pat[q + 1]) || InSet(pat, c, q + 2, ec)
    else if pat[q + 1] == '-' as int && q + 2 < ec then pat[q] <= c <= pat[q + 2] || InSet(pat, c, q + 3, ec)
    else pat[q] == c || InSet(pat, c, q + 1, ec)
  }

  predicate BracketClass(pat: seq<Byte>, c: Byte, p: nat, ec: nat)
    requires p < ec < |pat|
  {
    if pat[p + 1] == '^' as int then !InSet(pat, c, p + 2, ec) else InSet(pat, c, p + 1, ec)
  }

  predicate SingleMatch(pat: seq<Byte>, c: Byte, p: nat, ep: nat)
    requires p < ep < |pat| && (pat[p] == '[' as int ==> p + 1 < ep)
  {
    if pat[p] == '.' as int then true
    else if pat[p] == ESC then MatchClass(c, pat[p + 1])
    else if pat[p] == '[' as int then BracketClass(pat, c, p, ep - 1)
    else pat[p] == c
  }

  /** A class and its end, as `ClassEnd` finds them. */
  predicate IsClass(pat: seq<Byte>, p: nat, ep: nat) {
    Terminated(pat) && p < ep < |pat| && pat[p] != 0 && ClassEnd(pat, p) == At(ep)
  }

  lemma ClassHasEnd(pat: seq<Byte>, p: nat, ep: nat)
    requires IsClass(pat, p, ep)
    ensures pat[p] == '[' as int ==> p + 1 < ep
  {
  }

  /** The subject goes on at `s` with a character of the class. */
  predicate Here(src: seq<Byte>, pat: seq<Byte>, s: nat, p: nat, ep: nat)
    requires IsClass(pat, p, ep)
  {
    s < |src| && SingleMatch(pat, src[s], p, ep)
  }

  // ---- balanced strings and captures

  /** The end of a balanced string that began at `b`; `depth` of them are open before `s`. */
  function Balance(src: seq<Byte>, s: nat, b: Byte, e: Byte, depth: nat): (r: int)
    requires depth > 0
    ensures r == -1 || s < r <= |src|
    decreases |src| - s
  {
    if s >= |src| then -1
    else if src[s] == e then (if depth == 1 then s + 1 else Balance(src, s + 1, b, e, depth - 1))
    else if src[s] == b then Balance(src, s + 1, b, e, depth + 1)
    else Balance(src, s + 1, b, e, depth)
  }

  /** Every capture started before `s`; a finished one lies in the subject. */
  predicate CapsOk(src: seq<Byte>, s: nat, caps: seq<Cap>) {
    && |caps| <= MAXCAPTURES
    && forall i :: 0 <= i < |caps| ==>
         caps[i].init <= s && caps[i].len >= POSITION && caps[i].init + caps[i].len <= |src|
  }

  /** The last capture that is still open, or -1. */
  function LastOpen(caps: seq<Cap>): (l: int)
    ensures -1 <= l < |caps| && (l >= 0 ==> caps[l].len == UNFINISHED)
  {
    if caps == [] then -1
    else if caps[|caps| - 1].len == UNFINISHED then |caps| - 1
    else LastOpen(caps[..|caps| - 1])
  }

  /** The substring at `s` equals an earlier capture; a position capture equals nothing. */
  predicate SameAs(src: seq<Byte>, s: nat, c: Cap)
    requires s <= |src| && c.len >= POSITION && c.init + c.len <= |src|
  {
    c.len >= 0 && s + c.len <= |src| && src[c.init..c.init + c.len] == src[s..s + c.len]
  }

  function ByteAt(src: seq<Byte>, s: nat): Byte { if s < |src| then src[s] else 0 }

  // ---- matching

  /** Matches the pattern from `p` against the subject from `s`. */
  function DoMatch(src: seq<Byte>, pat: seq<Byte>, s: nat, p: nat, caps: seq<Cap>): (r: Outcome)
    requires Terminated(pat) && s <= |src| && p < |pat| && CapsOk(src, s, caps)
    ensures r.Done? ==> s <= r.e <= |src| && CapsOk(src, r.e, r.caps)
    decreases |pat| - p, 1, 0
  {
    if pat[p] == '(' as int then
      if pat[p + 1] == ')' as int then StartCapture(src, pat, s, p + 2, caps, POSITION)
      else StartCapture(src, pat, s, p + 1, caps, UNFINISHED)
    else if pat[p] == ')' as int then EndCapture(src, pat, s, p + 1, caps)
    else if pat[p] == ESC && pat[p + 1] == 'b' as int then
      if pat[p + 2] == 0 || pat[p + 3] == 0 then Raise(UnbalancedPattern)
      else if ByteAt(src, s) != pat[p + 2] then Fail
      else
        var e := Balance(src, s + 1, pat[p + 2], pat[p + 3], 1);
        if e == -1 then Fail else DoMatch(src, pat, e, p + 4, caps)
    else if pat[p] == ESC && pat[p + 1] == 'f' as int then
      if pat[p + 2] != '[' as int then Raise(MissingSet)
      else
        (match ClassEnd(pat, p + 2)
         case Malformed(why) => Raise(why)
         case At(ep) =>
           var previous := if s == 0 then 0 else src[s - 1];
           if BracketClass(pat, previous, p + 2, ep - 1) || !BracketClass(pat, ByteAt(src, s), p + 2, ep - 1) then Fail
           else DoMatch(src, pat, s, ep, caps))
    else if pat[p] == ESC && IsDigit(pat[p + 1]) then
      var l := pat[p + 1] - '1' as int;
      if l < 0 || l >= |caps| || caps[l].len == UNFINISHED then Raise(InvalidCapture)
      else if SameAs(src, s, caps[l]) then DoMatch(src, pat, s + caps[l].len, p + 2, caps)
      else Fail
    else if pat[p] == 0 then Done(s, caps)
    else if pat[p] == '$' as int && pat[p + 1] == 0 then
      if s == |src| then Done(s, caps) else Fail
    else
      match ClassEnd(pat, p)
      case Malformed(why) => Raise(why)
      case At(ep) => MatchItem(src, pat, s, p, ep, caps)
  }

  /** Matches one pattern item, then the rest. */
  function MatchItem(src: seq<Byte>, pat: seq<Byte>, s: nat, p: nat, ep: nat, caps: seq<Cap>): (r: Outcome)
    requires IsClass(pat, p, ep) && s <= |src| && CapsOk(src, s, caps)
    ensures r.Done? ==> s <= r.e <= |src| && CapsOk(src, r.e, r.caps)
    decreases |pat| - p, 0, |src| + 2
  {
    var m := Here(src, pat, s, p, ep);
    if pat[ep] == '?' as int then
      var r := if m then DoMatch(src, pat, s + 1, ep + 1, caps) else Fail;
      if r.Fail? then DoMatch(src, pat, s, ep + 1, caps) else r
    else if pat[ep] == '*' as int then MaxExpand(src, pat, s, p, ep, caps)
    else if pat[ep] == '+' as int then (if m then MaxExpand(src, pat, s + 1, p, ep, caps) else Fail)
    else if pat[ep] == '-' as int then MinExpand(src, pat, s, p, ep, caps)
    else if m then DoMatch(src, pat, s + 1, ep, caps)
    else Fail
  }

  /** How many characters of the class follow. */
  function Run(src: seq<Byte>, pat: seq<Byte>, s: nat, p: nat, ep: nat): (n: nat)
    requires IsClass(pat, p, ep) && s <= |src|
    ensures s + n <= |src| && (forall k :: s <= k < s + n ==> Here(src, pat, k, p, ep)) && !Here(src, pat, s + n, p, ep)
    decreases |src| - s
  {
    if Here(src, pat, s, p, ep) then 1 + Run(src, pat, s + 1, p, ep) else 0
  }

  /** The longest repetition first, then shorter ones. */
  function MaxExpand(src: seq<Byte>, pat: seq<Byte>, s: nat, p: nat, ep: nat, caps: seq<Cap>): (r: Outcome)
    requires IsClass(pat, p, ep) && pat[ep] != 0 && s <= |src| && CapsOk(src, s, caps)
    ensures r.Done? ==> s <= r.e <= |src| && CapsOk(src, r.e, r.caps)
    decreases |pat| - p, 0, |src| + 1
  {
    TryDown(src, pat, s, Run(src, pat, s, p, ep), p, ep, caps)
  }

  function TryDown(src: seq<Byte>, pat: seq<Byte>, s: nat, i: nat, p: nat, ep: nat, caps: seq<Cap>): (r: Outcome)
    requires IsClass(pat, p, ep) && pat[ep] != 0 && s + i <= |src| && CapsOk(src, s, caps)
    ensures r.Done? ==> s <= r.e <= |src| && CapsOk(src, r.e, r.caps)
    decreases |pat| - p, 0, i
  {
    var r := DoMatch(src, pat, s + i, ep + 1, caps);
    if r.Fail? && i > 0 then TryDown(src, pat, s, i - 1, p, ep, caps) else r
  }

  /** The shortest repetition first, then longer ones. */
  function MinExpand(src: seq<Byte>, pat: seq<Byte>, s: nat, p: nat, ep: nat, caps: seq<Cap>): (r: Outcome)
    requires IsClass(pat, p, ep) && pat[ep] != 0 && s <= |src| && CapsOk(src, s, caps)
    ensures r.Done? ==> s <= r.e <= |src| && CapsOk(src, r.e, r.caps)
    decreases |pat| - p, 0, |src| - s
  {
    var r := DoMatch(src, pat, s, ep + 1, caps);
    if r.Fail? && Here(src, pat, s, p, ep) then MinExpand(src, pat, s + 1, p, ep, caps) else r
  }

  function StartCapture(src: seq<Byte>, pat: seq<Byte>, s: nat, p: nat, caps: seq<Cap>, what: int): (r: Outcome)
    requires Terminated(pat) && s <= |src| && p < |pat| && CapsOk(src, s, caps)
               && (what == POSITION || what == UNFINISHED)
    ensures r.Done? ==> s <= r.e <= |src| && CapsOk(src, r.e, r.caps)
    decreases |pat| - p, 2, 0
  {
    if |caps| >= MAXCAPTURES then Raise(TooManyCaptures)
    else DoMatch(src, pat, s, p, caps + [Cap(s, what)])
  }

  function EndCapture(src: seq<Byte>, pat: seq<Byte>, s: nat, p: nat, caps: seq<Cap>): (r: Outcome)
    requires Terminated(pat) && s <= |src| && p < |pat| && CapsOk(src, s, caps)
    ensures r.Done? ==> s <= r.e <= |src| && CapsOk(src, r.e, r.caps)
    decreases |pat| - p, 2, 0
  {
    var l := LastOpen(caps);
    if l == -1 then Raise(InvalidPatternCapture)
    else DoMatch(src, pat, s, p, caps[l := caps[l].(len := s - caps[l].init)])
  }
}
