/** The matcher as it runs: one array of captures, changed while matching goes forward and restored when it fails
    (lstrlib.cc). */
module Matcher {
  import opened Bytes
  import opened Pattern
  import opened PatternWays

  datatype Result = NoMatch | Found(e: nat) | Error(why: Failure)

  /** What a matching method promises: the result, and the captures it leaves. A failure leaves those it was given. */
  ghost predicate Agrees(spec: Outcome, r: Result, before: seq<Cap>, after: seq<Cap>) {
    match spec
    case Fail => r == NoMatch && after == before
    case Done(e, caps) => r == Found(e) && after == caps
    case Raise(why) => r == Error(why)
  }

  class MatchState {
    const src: seq<Byte>
    const pat: seq<Byte>
    var level: nat
    const capture: array<Cap>

    ghost predicate Valid()
      reads this, capture
    {
      Terminated(pat) && capture.Length == MAXCAPTURES && level <= MAXCAPTURES
    }

    function Caps(): seq<Cap>
      requires level <= capture.Length
      reads this, capture
    {
      capture[..level]
    }

    constructor (subject: seq<Byte>, pattern: seq<Byte>)
      requires Terminated(pattern)
      ensures Valid() && src == subject && pat == pattern && fresh(capture) && Caps() == []
    {
      src, pat, level := subject, pattern, 0;
      capture := new Cap[MAXCAPTURES](_ => Cap(0, UNFINISHED));
    }

    method FindClassEnd(p0: nat) returns (e: End)
      requires Terminated(pat) && p0 < |pat| && pat[p0] != 0
      ensures e == ClassEnd(pat, p0)
    {
      var p := p0 + 1;
      if pat[p0] == ESC {
        return if pat[p] == 0 then Malformed(EndsWithPercent) else At(p + 1);
      }
      if pat[p0] == '[' as int {
        if pat[p] == '^' as int {
          p := p + 1;
        }
        ghost var first := p;
        while true
          invariant p < |pat| && SetEnd(pat, first) == SetEnd(pat, p)
          decreases |pat| - p
        {
          if pat[p] == 0 {
            return Malformed(MissingBracket);
          }
          p := p + 1;
          if pat[p - 1] == ESC && pat[p] != 0 {
            p := p + 1;
          }
          if pat[p] == ']' as int {
            return At(p + 1);
          }
        }
      }
      return At(p);
    }

    method MatchBracketClass(c: Byte, p0: nat, ec: nat) returns (r: bool)
      requires p0 < ec < |pat|
      ensures r == BracketClass(pat, c, p0, ec)
    {
      var sig, p := true, p0;
      if pat[p + 1] == '^' as int {
        sig := false;
        p := p + 1;
      }
      p := p + 1;
      ghost var first := p;
      while p < ec
        invariant first <= p && InSet(pat, c, first, ec) == InSet(pat, c, p, ec)
        decreases ec - p
      {
        if pat[p] == ESC {
          p := p + 1;
          if MatchClass(c, pat[p]) {
            return sig;
          }
        } else if pat[p + 1] == '-' as int && p + 2 < ec {
          p := p + 2;
          if pat[p - 2] <= c <= pat[p] {
            return sig;
          }
        } else if pat[p] == c {
          return sig;
        }
        p := p + 1;
      }
      return !sig;
    }

    method Single(s: nat, p: nat, ep: nat) returns (m: bool)
      requires IsClass(pat, p, ep)
      ensures m == Here(src, pat, s, p, ep)
    {
      if s >= |src| {
        return false;
      }
      ClassHasEnd(pat, p, ep);
      if pat[p] == '.' as int {
        return true;
      } else if pat[p] == ESC {
        return MatchClass(src[s], pat[p + 1]);
      } else if pat[p] == '[' as int {
        m := MatchBracketClass(src[s], p, ep - 1);
      } else {
        return pat[p] == src[s];
      }
    }

    method MatchBalance(s0: nat, p: nat) returns (r: int, ok: bool)
      requires Terminated(pat) && p < |pat| && s0 <= |src| && (pat[p] != 0 ==> p + 1 < |pat|)
      ensures ok <==> pat[p] != 0 && pat[p + 1] != 0
      ensures ok ==> r == if ByteAt(src, s0) != pat[p] then -1 else Balance(src, s0 + 1, pat[p], pat[p + 1], 1)
    {
      if pat[p] == 0 || pat[p + 1] == 0 {
        return 0, false;
      }
      if ByteAt(src, s0) != pat[p] {
        return -1, true;
      }
      var b, e := pat[p], pat[p + 1];
      var cont, s := 1, s0 + 1;
      while s < |src|
        invariant cont > 0 && s0 < s && Balance(src, s0 + 1, b, e, 1) == Balance(src, s, b, e, cont)
      {
        if src[s] == e {
          cont := cont - 1;
          if cont == 0 {
            return s + 1, true;
          }
        } else if src[s] == b {
          cont := cont + 1;
        }
        s := s + 1;
      }
      return -1, true;
    }

    /** The innermost capture still open. */
    method CaptureToClose() returns (l: int)
      requires Valid()
      ensures l == LastOpen(Caps())
    {
      l := level - 1;
      assert Caps()[..level] == Caps();
      while l >= 0
        invariant -1 <= l < level && LastOpen(Caps()[..l + 1]) == LastOpen(Caps())
      {
        assert Caps()[..l + 1][..l] == Caps()[..l];
        if capture[l].len == UNFINISHED {
          return;
        }
        l := l - 1;
      }
    }

    method MatchCapture(s: nat, l: nat) returns (r: int)
      requires Valid() && l < level && CapsOk(src, s, Caps()) && s <= |src|
      ensures r == if SameAs(src, s, Caps()[l]) then s + Caps()[l].len else -1
    {
      var len := capture[l].len;
      assert Caps()[l] == capture[l];
      if len >= 0 && |src| - s >= len && src[capture[l].init..capture[l].init + len] == src[s..s + len] {
        return s + len;
      }
      return -1;
    }

    // ---- matching

    /** Either the result, or where to go on: the rest of the match is the same. */
    ghost predicate Steps(s: nat, p: nat, caps: seq<Cap>, done: bool, r: Result, s1: nat, p1: nat)
      requires Valid() && s <= |src| && p < |pat| && CapsOk(src, s, caps)
      reads this, capture
    {
      if done then Agrees(DoMatch(src, pat, s, p, caps), r, caps, Caps())
      else s <= s1 <= |src| && p < p1 < |pat| && Caps() == caps && CapsOk(src, s1, caps)
           && DoMatch(src, pat, s, p, caps) == DoMatch(src, pat, s1, p1, caps)
    }

    method Match(s0: nat, p0: nat) returns (r: Result)
      requires Valid() && s0 <= |src| && p0 < |pat| && CapsOk(src, s0, Caps())
      modifies this, capture
      ensures Valid() && Agrees(DoMatch(src, pat, s0, p0, old(Caps())), r, old(Caps()), Caps())
      decreases |pat| - p0, 3, 0
    {
      hide DoMatch, CapsOk;
      var s, p := s0, p0;
      ghost var caps := Caps();
      while true
        invariant s0 <= s <= |src| && p0 <= p < |pat| && Valid() && Caps() == caps && CapsOk(src, s, caps)
        invariant DoMatch(src, pat, s0, p0, caps) == DoMatch(src, pat, s, p, caps)
        decreases |pat| - p
      {
        var done, s1, p1;
        if pat[p] == '(' as int {
          Opening(s, p, caps);
          r := StartCap(s, if pat[p + 1] == ')' as int then p + 2 else p + 1,
                        if pat[p + 1] == ')' as int then POSITION else UNFINISHED);
          return;
        } else if pat[p] == ')' as int {
          Closing(s, p, caps);
          r := EndCap(s, p + 1);
          return;
        } else if pat[p] == ESC && (pat[p + 1] == 'b' as int || pat[p + 1] == 'f' as int || IsDigit(pat[p + 1])) {
          done, r, s1, p1 := Escape(s, p);
        } else if pat[p] == 0 {
          Ending(s, p, caps);
          return Found(s);
        } else if pat[p] == '$' as int && pat[p + 1] == 0 {
          Ending(s, p, caps);
          return if s == |src| then Found(s) else NoMatch;
        } else {
          done, r, s1, p1 := Item(s, p);
        }
        if done {
          return;
        }
        s, p := s1, p1;
      }
    }

    lemma Opening(s: nat, p: nat, caps: seq<Cap>)
      requires Terminated(pat) && s <= |src| && p < |pat| && CapsOk(src, s, caps) && pat[p] == '(' as int
      ensures pat[p + 1] == ')' as int ==>
                DoMatch(src, pat, s, p, caps) == StartCapture(src, pat, s, p + 2, caps, POSITION)
      ensures pat[p + 1] != ')' as int ==>
                DoMatch(src, pat, s, p, caps) == StartCapture(src, pat, s, p + 1, caps, UNFINISHED)
    {
    }

    lemma Closing(s: nat, p: nat, caps: seq<Cap>)
      requires Terminated(pat) && s <= |src| && p < |pat| && CapsOk(src, s, caps) && pat[p] == ')' as int
      ensures DoMatch(src, pat, s, p, caps) == EndCapture(src, pat, s, p + 1, caps)
    {
    }

    lemma Ending(s: nat, p: nat, caps: seq<Cap>)
      requires Terminated(pat) && s <= |src| && p < |pat| && CapsOk(src, s, caps)
      requires pat[p] == 0 || (pat[p] == '$' as int && pat[p + 1] == 0)
      ensures DoMatch(src, pat, s, p, caps) == if pat[p] == 0 || s == |src| then Done(s, caps) else Fail
    {
    }

    /** `%b`, `%f` and references to captures. */
    method Escape(s: nat, p: nat) returns (done: bool, r: Result, s1: nat, p1: nat)
      requires Valid() && s <= |src| && p < |pat| && CapsOk(src, s, Caps()) && pat[p] == ESC
      requires pat[p + 1] == 'b' as int || pat[p + 1] == 'f' as int || IsDigit(pat[p + 1])
      ensures Valid() && Steps(s, p, Caps(), done, r, s1, p1)
    {
      hide Balance, BracketClass, ClassEnd;
      done, r, s1, p1 := true, NoMatch, s, p;
      if pat[p + 1] == 'b' as int {
        var e, ok := MatchBalance(s, p + 2);
        if !ok {
          r := Error(UnbalancedPattern);
        } else if e != -1 {
          done, s1, p1 := false, e, p + 4;
        }
      } else if pat[p + 1] == 'f' as int {
        if pat[p + 2] != '[' as int {
          r := Error(MissingSet);
          return;
        }
        var e := FindClassEnd(p + 2);
        if e.Malformed? {
          r := Error(e.why);
          return;
        }
        SetHasEnd(p + 2, e.ep);
        var previous := if s == 0 then 0 else src[s - 1];
        var before := MatchBracketClass(previous, p + 2, e.ep - 1);
        var here := MatchBracketClass(ByteAt(src, s), p + 2, e.ep - 1);
        if !before && here {
          done, p1 := false, e.ep;
        }
      } else {
        var l := pat[p + 1] - '1' as int;
        if l < 0 || l >= level || capture[l].len == UNFINISHED {
          r := Error(InvalidCapture);
          return;
        }
        var e := MatchCapture(s, l);
        if e != -1 {
          done, s1, p1 := false, e, p + 2;
        }
      }
    }

    lemma SetHasEnd(p: nat, ep: nat)
      requires Terminated(pat) && p < |pat| && pat[p] == '[' as int && ClassEnd(pat, p) == At(ep)
      ensures p < ep - 1 < |pat|
    {
    }

    /** A pattern item: a class, perhaps repeated. */
    method Item(s: nat, p: nat) returns (done: bool, r: Result, s1: nat, p1: nat)
      requires Valid() && s <= |src| && p < |pat| && CapsOk(src, s, Caps()) && pat[p] != 0
      requires pat[p] != '(' as int && pat[p] != ')' as int && !(pat[p] == '$' as int && pat[p + 1] == 0)
      requires !(pat[p] == ESC && (pat[p + 1] == 'b' as int || pat[p + 1] == 'f' as int || IsDigit(pat[p + 1])))
      modifies this, capture
      ensures Valid() && Steps(s, p, old(Caps()), done, r, s1, p1)
      decreases |pat| - p, 2, 0
    {
      hide ClassEnd, Here, MaxExpand, MinExpand, CapsOk;
      ghost var caps := Caps();
      done, r, s1, p1 := true, NoMatch, s, p;
      var e := FindClassEnd(p);
      if e.Malformed? {
        r := Error(e.why);
        return;
      }
      var ep := e.ep;
      var m := Single(s, p, ep);
      ItemMeans(s, p, ep, caps);
      HereBound(s, p, ep, caps);
      if pat[ep] == '?' as int {
        if m {
          r := Match(s + 1, ep + 1);
          if r != NoMatch {
            return;
          }
        }
        done, p1 := false, ep + 1;
      } else if pat[ep] == '*' as int {
        r := Expand(s, p, ep);
      } else if pat[ep] == '+' as int {
        if m {
          r := Expand(s + 1, p, ep);
        }
      } else if pat[ep] == '-' as int {
        r := ExpandLazily(s, p, ep);
      } else if m {
        done, s1, p1 := false, s + 1, ep;
      }
    }

    lemma ItemMeans(s: nat, p: nat, ep: nat, caps: seq<Cap>)
      requires Terminated(pat) && s <= |src| && p < |pat| && CapsOk(src, s, caps) && pat[p] != 0
      requires pat[p] != '(' as int && pat[p] != ')' as int && !(pat[p] == '$' as int && pat[p + 1] == 0)
      requires !(pat[p] == ESC && (pat[p + 1] == 'b' as int || pat[p + 1] == 'f' as int || IsDigit(pat[p + 1])))
      requires ClassEnd(pat, p) == At(ep)
      ensures DoMatch(src, pat, s, p, caps) == MatchItem(src, pat, s, p, ep, caps)
    {
    }

    lemma HereBound(s: nat, p: nat, ep: nat, caps: seq<Cap>)
      requires IsClass(pat, p, ep) && s <= |src| && CapsOk(src, s, caps)
      ensures Here(src, pat, s, p, ep) ==> s < |src| && CapsOk(src, s + 1, caps)
    {
    }

    /** How many repetitions the subject offers. */
    method CountRun(s: nat, p: nat, ep: nat) returns (i: nat)
      requires IsClass(pat, p, ep) && s <= |src|
      ensures i == Run(src, pat, s, p, ep)
    {
      hide IsClass, Here;
      i := 0;
      var more := Single(s, p, ep);
      while more
        invariant s + i <= |src| && more == Here(src, pat, s + i, p, ep)
        invariant Run(src, pat, s, p, ep) == i + Run(src, pat, s + i, p, ep)
        decreases |src| - s - i
      {
        i := i + 1;
        more := Single(s + i, p, ep);
      }
    }

    method Expand(s: nat, p: nat, ep: nat) returns (r: Result)
      requires Valid() && IsClass(pat, p, ep) && pat[ep] != 0 && s <= |src| && CapsOk(src, s, Caps())
      modifies this, capture
      ensures Valid() && Agrees(MaxExpand(src, pat, s, p, ep, old(Caps())), r, old(Caps()), Caps())
      decreases |pat| - p, 0, 1
    {
      hide DoMatch, Here, Run;
      ghost var caps := Caps();
      var i: int := CountRun(s, p, ep);
      while i >= 0
        invariant -1 <= i && s + i <= |src| && Valid() && Caps() == caps
        invariant MaxExpand(src, pat, s, p, ep, caps) == if i >= 0 then TryDown(src, pat, s, i, p, ep, caps) else Fail
        decreases i
      {
        r := Match(s + i, ep + 1);
        if r != NoMatch {
          return;
        }
        i := i - 1;
      }
      r := NoMatch;
    }

    method ExpandLazily(s0: nat, p: nat, ep: nat) returns (r: Result)
      requires Valid() && IsClass(pat, p, ep) && pat[ep] != 0 && s0 <= |src| && CapsOk(src, s0, Caps())
      modifies this, capture
      ensures Valid() && Agrees(MinExpand(src, pat, s0, p, ep, old(Caps())), r, old(Caps()), Caps())
      decreases |pat| - p, 0, 0
    {
      ghost var caps := Caps();
      var s := s0;
      while true
        invariant s0 <= s <= |src| && Valid() && Caps() == caps
        invariant MinExpand(src, pat, s0, p, ep, caps) == MinExpand(src, pat, s, p, ep, caps)
        decreases |src| - s
      {
        r := Match(s, ep + 1);
        if r != NoMatch {
          return;
        }
        var m := Single(s, p, ep);
        if !m {
          return;
        }
        s := s + 1;
      }
    }

    method StartCap(s: nat, p: nat, what: int) returns (r: Result)
      requires Valid() && s <= |src| && p < |pat| && CapsOk(src, s, Caps()) && (what == POSITION || what == UNFINISHED)
      modifies this, capture
      ensures Valid() && Agrees(StartCapture(src, pat, s, p, old(Caps()), what), r, old(Caps()), Caps())
      decreases |pat| - p, 4, 0
    {
      ghost var caps := Caps();
      if level >= MAXCAPTURES {
        return Error(TooManyCaptures);
      }
      capture[level] := Cap(s, what);
      level := level + 1;
      assert Caps() == caps + [Cap(s, what)];
      r := Match(s, p);
      if r == NoMatch {
        assert Caps()[..level - 1] == caps;
        level := level - 1;
      }
    }

    method EndCap(s: nat, p: nat) returns (r: Result)
      requires Valid() && s <= |src| && p < |pat| && CapsOk(src, s, Caps())
      modifies this, capture
      ensures Valid() && Agrees(EndCapture(src, pat, s, p, old(Caps())), r, old(Caps()), Caps())
      decreases |pat| - p, 4, 0
    {
      ghost var caps := Caps();
      var l := CaptureToClose();
      if l == -1 {
        return Error(InvalidPatternCapture);
      }
      capture[l] := capture[l].(len := s - capture[l].init);
      assert Caps() == caps[l := caps[l].(len := s - caps[l].init)];
      r := Match(s, p);
      if r == NoMatch {
        ghost var now := Caps();
        capture[l] := capture[l].(len := UNFINISHED);
        assert Caps() == now[l := now[l].(len := UNFINISHED)];
        assert Caps() == caps;
      }
    }
  }

  datatype Search = Nowhere | Somewhere(start: nat, e: nat, caps: seq<Cap>) | Stopped(why: Failure)

  /** Nothing matches at the positions from `from` up to `to`. */
  ghost predicate NoneFrom(src: seq<Byte>, pat: seq<Byte>, p: nat, from: nat, to: nat)
    requires Terminated(pat) && p < |pat| && to <= |src| + 1
  {
    forall k :: from <= k < to ==> Yields(src, pat, p, k, Fail)
  }

  /** Looks for the first position at which the pattern matches; a caret ties it to where the search starts. */
  method Find(src: seq<Byte>, pat: seq<Byte>, init: nat) returns (r: Search)
    requires Terminated(pat) && init <= |src|
    ensures var anchor := pat[0] == '^' as int;
            var p := if anchor then 1 else 0;
            match r
            case Nowhere => NoneFrom(src, pat, p, init, if anchor then init + 1 else |src| + 1)
            case Somewhere(start, e, caps) =>
              && init <= start <= |src| && (anchor ==> start == init) && NoneFrom(src, pat, p, init, start)
              && Yields(src, pat, p, start, Done(e, caps))
            case Stopped(why) =>
              exists k :: init <= k <= |src| && NoneFrom(src, pat, p, init, k) && Yields(src, pat, p, k, Raise(why))
  {
    hide DoMatch, Yields;
    var ms := new MatchState(src, pat);
    var anchor := pat[0] == '^' as int;
    var p := if anchor then 1 else 0;
    var s1 := init;
    while true
      invariant init <= s1 <= |src| && ms.Valid() && (anchor ==> s1 == init) && fresh(ms) && fresh(ms.capture)
      invariant ms.src == src && ms.pat == pat && NoneFrom(src, pat, p, init, s1)
      decreases |src| - s1
    {
      ms.level := 0;
      assert ms.Caps() == [];
      MatchYields(src, pat, s1, p);
      var m := ms.Match(s1, p);
      match m {
        case Found(e) => return Somewhere(s1, e, ms.Caps());
        case Error(why) => return Stopped(why);
        case NoMatch =>
      }
      if s1 == |src| || anchor {
        return Nowhere;
      }
      s1 := s1 + 1;
    }
  }
}
