/** What the captures of a match are: the stretch of the subject between where a match passes a parenthesis and where it
    passes its partner. */
module PatternCaptures {
  import opened Bytes
  import opened Pattern
  import opened PatternWays

  /** Where a way stands before item `i`. */
  function Where(s: nat, w: seq<nat>, i: nat): nat
    requires i <= |w|
    decreases i
  {
    if i == 0 then s else Where(s + w[0], w[1..], i - 1)
  }

  predicate Starts(item: Item) { item.Open? || item.Position? }

  /** How many captures the first `i` items start. */
  function Started(items: seq<Item>, i: nat): nat
    requires i <= |items|
  {
    if i == 0 then 0 else (if Starts(items[0]) then 1 else 0) + Started(items[1..], i - 1)
  }

  /** How many more parentheses the first `i` items open than they close. */
  function Depth(items: seq<Item>, i: nat): int
    requires i <= |items|
  {
    if i == 0 then 0
    else (if items[0].Open? then 1 else if items[0].Close? then -1 else 0) + Depth(items[1..], i - 1)
  }

  /** Behind `depth` parentheses and the one in question: `j` closes that one. */
  ghost predicate Closes(items: seq<Item>, depth: nat, j: nat) {
    && j < |items| && items[j].Close? && depth + Depth(items, j) == 0
    && forall k :: 0 <= k <= j ==> depth + Depth(items, k) >= 0
  }

  /** The parenthesis that closes `i` in the pattern is `j`. */
  ghost predicate Partner(items: seq<Item>, i: nat, j: nat) {
    i < j < |items| && items[i].Open? && Closes(items[i + 1..], 0, j - i - 1)
  }

  /** How many captures after `c` are open. */
  function OpenAbove(caps: seq<Cap>, c: nat): nat {
    if |caps| <= c + 1 then 0
    else OpenAbove(caps[..|caps| - 1], c) + if caps[|caps| - 1].len == UNFINISHED then 1 else 0
  }

  lemma {:induction false} AboveOpen(caps: seq<Cap>, c: nat)
    requires c < |caps|
    ensures OpenAbove(caps, c) > 0 <==> exists k :: c < k < |caps| && caps[k].len == UNFINISHED
    decreases |caps|
  {
    if |caps| > c + 1 {
      var before := caps[..|caps| - 1];
      AboveOpen(before, c);
      if OpenAbove(before, c) > 0 {
        var k :| c < k < |before| && before[k].len == UNFINISHED;
        assert caps[k].len == UNFINISHED;
      } else if caps[|caps| - 1].len != UNFINISHED {
        forall k | c < k < |caps| ensures caps[k].len != UNFINISHED {
          assert k < |caps| - 1 ==> before[k] == caps[k];
        }
      }
    }
  }

  /** No capture starts behind `s`. */
  predicate Begun(caps: seq<Cap>, s: nat) { forall k :: 0 <= k < |caps| ==> caps[k].init <= s }

  /** A closing parenthesis closes one above `c` if there is one, and else `c` itself. */
  lemma {:induction false} ClosedAbove(caps: seq<Cap>, c: nat, s: nat)
    requires c < |caps| && caps[c].len == UNFINISHED && Begun(caps, s)
    ensures var next := Leaves(Close, s, caps);
            && |next| == |caps|
            && (if OpenAbove(caps, c) > 0 then next[c] == caps[c] && OpenAbove(next, c) == OpenAbove(caps, c) - 1
                else next[c] == Cap(caps[c].init, s - caps[c].init))
    decreases |caps|
  {
    AboveOpen(caps, c);
    if OpenAbove(caps, c) > 0 {
      var n := |caps| - 1;
      var next := Leaves(Close, s, caps);
      if caps[n].len == UNFINISHED {
        assert next[..n] == caps[..n];
      } else {
        ClosedAbove(caps[..n], c, s);
        InnermostBefore(caps);
        assert next[..n] == Leaves(Close, s, caps[..n]);
      }
    } else {
      assert Innermost(caps, c);
    }
  }

  lemma InnermostBefore(caps: seq<Cap>)
    requires caps != [] && caps[|caps| - 1].len != UNFINISHED
    ensures forall k :: 0 <= k < |caps| - 1 ==> (Innermost(caps, k) <==> Innermost(caps[..|caps| - 1], k))
  {
    var before := caps[..|caps| - 1];
    forall k | 0 <= k < |caps| - 1 ensures Innermost(caps, k) <==> Innermost(before, k) {
      forall m | k < m < |caps| ensures m < |caps| - 1 ==> caps[m] == before[m] {
      }
    }
  }

  /** A way to an end has passed every item. */
  lemma {:induction false} Passed(src: seq<Byte>, pat: seq<Byte>, items: seq<Item>, ending: Ending, s: nat,
          caps: seq<Cap>, w: seq<nat>, e: nat, out: seq<Cap>)
    requires Classes(pat, items) && Way(src, pat, items, ending, s, caps, w, Done(e, out))
    ensures |w| == |items| && |out| == |caps| + Started(items, |items|) && e == Where(s, w, |items|)
    ensures forall c :: 0 <= c < |caps| && caps[c].len != UNFINISHED ==> out[c] == caps[c]
    decreases |items|
  {
    if items != [] {
      var next := Leaves(items[0], s, caps);
      Passed(src, pat, items[1..], ending, s + w[0], next, w[1..], e, out);
    }
  }

  /** What becomes of a capture that is open, with `OpenAbove` others open above it. */
  lemma {:induction false} Followed(src: seq<Byte>, pat: seq<Byte>, items: seq<Item>, ending: Ending, s: nat,
          caps: seq<Cap>, w: seq<nat>, e: nat, out: seq<Cap>, c: nat)
    requires Classes(pat, items) && Way(src, pat, items, ending, s, caps, w, Done(e, out))
    requires c < |caps| && caps[c].len == UNFINISHED && Begun(caps, s)
    ensures |w| == |items| && c < |out| && out[c].init == caps[c].init
    ensures forall j :: Closes(items, OpenAbove(caps, c), j) ==> out[c].len == Where(s, w, j) - caps[c].init
    ensures (forall j :: !Closes(items, OpenAbove(caps, c), j)) ==> out[c].len == UNFINISHED
    decreases |items|
  {
    hide Takes, Refuses;
    Passed(src, pat, items, ending, s, caps, w, e, out);
    if items == [] {
      return;
    }
    var depth := OpenAbove(caps, c);
    var next := Leaves(items[0], s, caps);
    Passed(src, pat, items[1..], ending, s + w[0], next, w[1..], e, out);
    if items[0].Close? && depth == 0 {
      ClosedAbove(caps, c, s);
      assert Closes(items, 0, 0);
      assert Depth(items, 1) == -1;
      forall j | Closes(items, 0, j) ensures j == 0 {
      }
    } else {
      StepAbove(items[0], s, caps, c);
      var further := OpenAbove(next, c);
      Followed(src, pat, items[1..], ending, s + w[0], next, w[1..], e, out, c);
      forall j: nat | j < |items| ensures Closes(items, depth, j) <==> j > 0 && Closes(items[1..], further, j - 1) {
        ClosesStep(items, depth, further, j);
      }
      assert forall j: nat :: Closes(items[1..], further, j) ==> Closes(items, depth, j + 1);
    }
  }

  lemma StepAbove(item: Item, s: nat, caps: seq<Cap>, c: nat)
    requires c < |caps| && caps[c].len == UNFINISHED && Begun(caps, s) && (item.Close? ==> OpenAbove(caps, c) > 0)
    ensures var next := Leaves(item, s, caps);
            && c < |next| && next[c] == caps[c]
            && OpenAbove(next, c) == OpenAbove(caps, c) + if item.Open? then 1 else if item.Close? then -1 else 0
  {
    if item.Close? {
      ClosedAbove(caps, c, s);
    } else if Starts(item) {
      assert Leaves(item, s, caps)[..|caps|] == caps;
    }
  }

  lemma ClosesStep(items: seq<Item>, depth: nat, further: nat, j: nat)
    requires j < |items| && (items[0].Close? ==> depth > 0)
    requires further == depth + if items[0].Open? then 1 else if items[0].Close? then -1 else 0
    ensures Closes(items, depth, j) <==> j > 0 && Closes(items[1..], further, j - 1)
  {
    var rest := items[1..];
    forall k: nat | k < |items| ensures Depth(items, k + 1) == further - depth + Depth(rest, k) {
    }
    if j > 0 {
      assert items[j] == rest[j - 1];
      if Closes(items, depth, j) {
        forall k | 0 <= k <= j - 1 ensures further + Depth(rest, k) >= 0 {
          assert depth + Depth(items, k + 1) >= 0;
        }
      } else if Closes(rest, further, j - 1) {
        forall k | 0 <= k <= j ensures depth + Depth(items, k) >= 0 {
          assert k > 0 ==> further + Depth(rest, k - 1) >= 0;
        }
      }
    }
  }

  /** The capture that item `i` starts: where the match passed it, and up to where it passed the partner. */
  ghost predicate Spans(items: seq<Item>, s: nat, w: seq<nat>, i: nat, cap: Cap)
    requires i < |items| == |w|
  {
    && cap.init == Where(s, w, i)
    && (items[i].Position? ==> cap.len == POSITION)
    && (items[i].Open? ==>
          && (forall j :: Partner(items, i, j) ==> cap.len == Where(s, w, j) - cap.init)
          && ((forall j :: !Partner(items, i, j)) ==> cap.len == UNFINISHED))
  }

  lemma SpansLater(items: seq<Item>, s: nat, w: seq<nat>, i: nat, cap: Cap)
    requires i + 1 < |items| == |w| && Spans(items[1..], s + w[0], w[1..], i, cap)
    ensures Spans(items, s, w, i + 1, cap)
  {
    var n, rest := i + 1, items[1..];
    assert items[n + 1..] == rest[n..];
    forall j: nat | Partner(items, n, j) ensures cap.len == Where(s, w, j) - cap.init {
      assert Partner(rest, i, j - 1);
    }
    if items[n].Open? && forall j :: !Partner(items, n, j) {
      forall j: nat ensures !Partner(rest, i, j) {
        assert !Partner(items, n, j + 1);
      }
    }
  }

  lemma {:induction false} FirstSpans(src: seq<Byte>, pat: seq<Byte>, items: seq<Item>, ending: Ending, s: nat,
          caps: seq<Cap>, w: seq<nat>, e: nat, out: seq<Cap>)
    requires Classes(pat, items) && Way(src, pat, items, ending, s, caps, w, Done(e, out))
    requires items != [] && items[0].Open? && Begun(caps, s)
    ensures |w| == |items| && |caps| < |out| && Spans(items, s, w, 0, out[|caps|])
  {
    hide Refuses, Closes, OpenAbove;
    var c, rest, next := |caps|, items[1..], caps + [Cap(s, UNFINISHED)];
    Passed(src, pat, rest, ending, s, next, w[1..], e, out);
    Followed(src, pat, rest, ending, s, next, w[1..], e, out, c);
    NoneAbove(next);
    assert items[0 + 1..] == rest;
    forall j: nat ensures Partner(items, 0, j + 1) <==> Closes(rest, 0, j) {
      ClosesIs(items, j);
    }
    if forall j: nat :: !Partner(items, 0, j) {
      forall j: nat ensures !Closes(rest, 0, j) {
        assert !Partner(items, 0, j + 1);
      }
    }
  }

  lemma NoneAbove(caps: seq<Cap>)
    requires caps != []
    ensures OpenAbove(caps, |caps| - 1) == 0
  {
  }

  lemma ClosesIs(items: seq<Item>, j: nat)
    requires items != [] && items[0].Open?
    ensures Partner(items, 0, j + 1) <==> Closes(items[1..], 0, j)
  {
  }

  /** A way to an end takes the first item and goes on. */
  lemma GoesOn(src: seq<Byte>, pat: seq<Byte>, items: seq<Item>, ending: Ending, s: nat, caps: seq<Cap>, w: seq<nat>,
          e: nat, out: seq<Cap>)
    requires Classes(pat, items) && Way(src, pat, items, ending, s, caps, w, Done(e, out)) && items != []
    ensures Classes(pat, items[1..]) && w != []
    ensures var next := Leaves(items[0], s, caps);
            && Way(src, pat, items[1..], ending, s + w[0], next, w[1..], Done(e, out))
            && |next| == |caps| + (if Starts(items[0]) then 1 else 0) && (Begun(caps, s) ==> Begun(next, s + w[0]))
  {
    hide Takes, Refuses;
  }

  lemma {:induction false} CapturesSpan(src: seq<Byte>, pat: seq<Byte>, items: seq<Item>, ending: Ending, s: nat,
          caps: seq<Cap>, w: seq<nat>, e: nat, out: seq<Cap>, i: nat)
    requires Classes(pat, items) && Way(src, pat, items, ending, s, caps, w, Done(e, out))
    requires i < |items| && Starts(items[i]) && Begun(caps, s)
    ensures |w| == |items| && |caps| + Started(items, i) < |out|
    ensures Spans(items, s, w, i, out[|caps| + Started(items, i)])
    decreases |items|
  {
    hide Way, Leaves, Spans, Begun, Classes;
    Passed(src, pat, items, ending, s, caps, w, e, out);
    GoesOn(src, pat, items, ending, s, caps, w, e, out);
    var next := Leaves(items[0], s, caps);
    if i > 0 {
      CapturesSpan(src, pat, items[1..], ending, s + w[0], next, w[1..], e, out, i - 1);
      SpansLater(items, s, w, i - 1, out[|caps| + Started(items, i)]);
    } else if items[0].Open? {
      FirstSpans(src, pat, items, ending, s, caps, w, e, out);
    } else {
      PositionSpans(src, pat, items, ending, s, caps, w, e, out);
    }
  }

  lemma {:induction false} PositionSpans(src: seq<Byte>, pat: seq<Byte>, items: seq<Item>, ending: Ending, s: nat,
          caps: seq<Cap>, w: seq<nat>, e: nat, out: seq<Cap>)
    requires Classes(pat, items) && Way(src, pat, items, ending, s, caps, w, Done(e, out))
    requires items != [] && items[0].Position?
    ensures |w| == |items| && |caps| < |out| && Spans(items, s, w, 0, out[|caps|])
  {
    hide Refuses;
    Passed(src, pat, items[1..], ending, s, caps + [Cap(s, POSITION)], w[1..], e, out);
  }

  /** A match has passed all items of its pattern, and what it yields are the captures of the stretches between the
      parentheses, in the order in which these are opened. */
  lemma MatchCaptures(src: seq<Byte>, pat: seq<Byte>, s: nat, p: nat) returns (w: seq<nat>)
    requires Terminated(pat) && s <= |src| && p < |pat| && DoMatch(src, pat, s, p, []).Done?
    ensures var items := Parse(pat, p).items;
            && |w| == |items| && Classes(pat, items)
            && Way(src, pat, items, Parse(pat, p).ending, s, [], w, DoMatch(src, pat, s, p, []))
    ensures var items := Parse(pat, p).items;
            var r := DoMatch(src, pat, s, p, []);
            && r.e == Where(s, w, |items|) && |r.caps| == Started(items, |items|)
            && forall i :: 0 <= i < |items| && Starts(items[i]) ==>
                 Started(items, i) < |r.caps| && Spans(items, s, w, i, r.caps[Started(items, i)])
  {
    hide DoMatch, Parse, Way, Classes, Spans;
    var items, ending := Parse(pat, p).items, Parse(pat, p).ending;
    var r := DoMatch(src, pat, s, p, []);
    w := MatchIsBest(src, pat, s, p, []);
    Passed(src, pat, items, ending, s, [], w, r.e, r.caps);
    forall i | 0 <= i < |items| && Starts(items[i])
      ensures Started(items, i) < |r.caps| && Spans(items, s, w, i, r.caps[Started(items, i)])
    {
      CapturesSpan(src, pat, items, ending, s, [], w, r.e, r.caps, i);
    }
  }
}
