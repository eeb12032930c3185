/** What a pattern means: the ways it can consume the subject, in order of preference, with the captures they leave. */
module PatternWays {
  import opened Bytes
  import opened Pattern

  datatype Rep = Once | Optional | Star | Plus | Lazy

  /** What a pattern asks for, one thing after the other; a back reference names a capture from 0. */
  datatype Item =
    | Chars(p: nat, ep: nat, rep: Rep)
    | Open
    | Position
    | Close
    | Balanced(b: Byte, e: Byte)
    | Frontier(p: nat, ep: nat)
    | Back(l: int)

  /** What is behind the last item: nothing, the anchor, or text that is no pattern. */
  datatype Ending = Free | Anchored | Broken(why: Failure)

  datatype Parsed = Parsed(items: seq<Item>, ending: Ending)

  function RepAt(c: Byte): Rep {
    if c == '?' as int then Optional
    else if c == '*' as int then Star
    else if c == '+' as int then Plus
    else if c == '-' as int then Lazy
    else Once
  }

  function Then(item: Item, rest: Parsed): Parsed { Parsed([item] + rest.items, rest.ending) }

  /** The items of a pattern from `p` on. */
  function Parse(pat: seq<Byte>, p: nat): (r: Parsed)
    requires Terminated(pat) && p < |pat|
    decreases |pat| - p
  {
    if pat[p] == 0 then Parsed([], Free)
    else if pat[p] == '$' as int && pat[p + 1] == 0 then Parsed([], Anchored)
    else if pat[p] == '(' as int then
      if pat[p + 1] == ')' as int then Then(Position, Parse(pat, p + 2)) else Then(Open, Parse(pat, p + 1))
    else if pat[p] == ')' as int then Then(Close, Parse(pat, p + 1))
    else if pat[p] == ESC && pat[p + 1] == 'b' as int then
      if pat[p + 2] == 0 || pat[p + 3] == 0 then Parsed([], Broken(UnbalancedPattern))
      else Then(Balanced(pat[p + 2], pat[p + 3]), Parse(pat, p + 4))
    else if pat[p] == ESC && pat[p + 1] == 'f' as int then
      if pat[p + 2] != '[' as int then Parsed([], Broken(MissingSet))
      else
        (match ClassEnd(pat, p + 2)
         case Malformed(why) => Parsed([], Broken(why))
         case At(ep) => Then(Frontier(p + 2, ep), Parse(pat, ep)))
    else if pat[p] == ESC && IsDigit(pat[p + 1]) then Then(Back(pat[p + 1] - '1' as int), Parse(pat, p + 2))
    else
      match ClassEnd(pat, p)
      case Malformed(why) => Parsed([], Broken(why))
      case At(ep) =>
        var rep := RepAt(pat[ep]);
        Then(Chars(p, ep, rep), Parse(pat, if rep == Once then ep else ep + 1))
  }

  /** The classes an item names are there. */
  predicate Sound(pat: seq<Byte>, item: Item) {
    match item
    case Chars(p, ep, _) => IsClass(pat, p, ep)
    case Frontier(p, ep) => IsClass(pat, p, ep) && pat[p] == '[' as int && p < ep - 1
    case _ => true
  }

  predicate Classes(pat: seq<Byte>, items: seq<Item>) {
    forall i :: 0 <= i < |items| ==> Sound(pat, items[i])
  }

  predicate Allowed(rep: Rep, n: nat) {
    match rep
    case Once => n == 1
    case Optional => n <= 1
    case Star => true
    case Plus => n >= 1
    case Lazy => true
  }

  /** Open, and nothing opened behind it is. */
  ghost predicate Innermost(caps: seq<Cap>, l: int) {
    && 0 <= l < |caps| && caps[l].len == UNFINISHED
    && forall k :: l < k < |caps| ==> caps[k].len != UNFINISHED
  }

  ghost predicate NoneOpen(caps: seq<Cap>) {
    forall k :: 0 <= k < |caps| ==> caps[k].len != UNFINISHED
  }

  /** How many are open at `to` if the byte at `s` opens one. Where both bytes are the same, they close. */
  ghost function OpenAt(src: seq<Byte>, s: nat, to: nat, b: Byte, e: Byte): int
    requires s < to <= |src|
  {
    var openings: int := if b == e then 0 else multiset(src[s + 1..to])[b];
    1 + openings - multiset(src[s + 1..to])[e]
  }

  /** From `s` to `t`: an opening byte, and then up to the first closing one that leaves nothing open. */
  ghost predicate BalancedTo(src: seq<Byte>, s: nat, t: nat, b: Byte, e: Byte) {
    && s + 1 < t <= |src| && src[s] == b && OpenAt(src, s, t, b, e) == 0
    && forall k :: s + 1 <= k < t ==> OpenAt(src, s, k, b, e) > 0
  }

  /** The bytes before and at `s`; the ends of the subject count as zero bytes. */
  ghost predicate FrontierAt(src: seq<Byte>, pat: seq<Byte>, s: nat, p: nat, ep: nat)
    requires s <= |src| && p < ep - 1 < |pat|
  {
    && !BracketClass(pat, if s > 0 then src[s - 1] else 0, p, ep - 1)
    && BracketClass(pat, if s < |src| then src[s] else 0, p, ep - 1)
  }

  /** At `s`, with these captures, the item may take the next `n` bytes. */
  ghost predicate Takes(src: seq<Byte>, pat: seq<Byte>, item: Item, s: nat, caps: seq<Cap>, n: nat)
    requires Sound(pat, item) && s + n <= |src|
  {
    match item
    case Chars(p, ep, rep) => Allowed(rep, n) && forall k :: s <= k < s + n ==> Here(src, pat, k, p, ep)
    case Open => n == 0 && |caps| < MAXCAPTURES
    case Position => n == 0 && |caps| < MAXCAPTURES
    case Close => n == 0 && !NoneOpen(caps)
    case Balanced(b, e) => BalancedTo(src, s, s + n, b, e)
    case Frontier(p, ep) => n == 0 && FrontierAt(src, pat, s, p, ep)
    case Back(l) =>
      && 0 <= l < |caps| && caps[l].len == n && caps[l].init + n <= |src|
      && forall k :: s <= k < s + n ==> src[k] == src[caps[l].init + (k - s)]
  }

  /** The captures behind the item: a parenthesis opens one here, or closes the innermost here. */
  ghost function Leaves(item: Item, s: nat, caps: seq<Cap>): seq<Cap> {
    match item
    case Open => caps + [Cap(s, UNFINISHED)]
    case Position => caps + [Cap(s, POSITION)]
    case Close =>
      seq(|caps|, k requires 0 <= k < |caps| =>
        if Innermost(caps, k) then Cap(caps[k].init, s - caps[k].init) else caps[k])
    case _ => caps
  }

  /** Coming to the item with these captures is an error. */
  ghost predicate Refuses(item: Item, caps: seq<Cap>, why: Failure) {
    match item
    case Open => |caps| >= MAXCAPTURES && why == TooManyCaptures
    case Position => |caps| >= MAXCAPTURES && why == TooManyCaptures
    case Close => NoneOpen(caps) && why == InvalidPatternCapture
    case Back(l) => !(0 <= l < |caps| && caps[l].len != UNFINISHED) && why == InvalidCapture
    case _ => false
  }

  predicate Ends(src: seq<Byte>, ending: Ending, s: nat, caps: seq<Cap>, r: Outcome) {
    match ending
    case Free => r == Done(s, caps)
    case Anchored => s == |src| && r == Done(s, caps)
    case Broken(why) => r == Raise(why)
  }

  /** `w` says how many bytes each item takes; that leads from `s` and these captures to the end `r`, or to the error
      `r` at the first item that is not taken. */
  ghost predicate Way(src: seq<Byte>, pat: seq<Byte>, items: seq<Item>, ending: Ending, s: nat, caps: seq<Cap>,
          w: seq<nat>, r: Outcome)
    requires Classes(pat, items)
    decreases |items|
  {
    if items == [] then w == [] && Ends(src, ending, s, caps, r)
    else if w == [] then r.Raise? && Refuses(items[0], caps, r.error)
    else
      && s + w[0] <= |src| && Takes(src, pat, items[0], s, caps, w[0])
      && Way(src, pat, items[1..], ending, s + w[0], Leaves(items[0], s, caps), w[1..], r)
  }

  /** The first item that takes another number of bytes decides: greedy items prefer more, lazy ones fewer. */
  ghost predicate Preferred(items: seq<Item>, w: seq<nat>, v: seq<nat>)
    decreases |items|
  {
    && items != [] && w != [] && v != []
    && if w[0] == v[0] then Preferred(items[1..], w[1..], v[1..])
       else if items[0].Chars? && items[0].rep == Lazy then w[0] < v[0] else w[0] > v[0]
  }

  /** Preference is a strict order, so that at most one way is the most preferred. */
  lemma {:induction false} PreferredStrict(items: seq<Item>, w: seq<nat>, v: seq<nat>)
    ensures Preferred(items, w, v) ==> !Preferred(items, v, w) && w != v
    decreases |items|
  {
    if items != [] && w != [] && v != [] && w[0] == v[0] {
      PreferredStrict(items[1..], w[1..], v[1..]);
    }
  }

  /** The result of a match is that of the most preferred way, and a failure means that there is no way. */
  ghost predicate Best(src: seq<Byte>, pat: seq<Byte>, items: seq<Item>, ending: Ending, s: nat, caps: seq<Cap>,
          r: Outcome, w: seq<nat>)
    requires Classes(pat, items)
  {
    if r.Fail? then forall v, q :: !Way(src, pat, items, ending, s, caps, v, q)
    else
      && Way(src, pat, items, ending, s, caps, w, r)
      && forall v, q :: Way(src, pat, items, ending, s, caps, v, q) ==> (v == w && q == r) || Preferred(items, w, v)
  }

  lemma {:induction false} ParseClasses(pat: seq<Byte>, p: nat)
    requires Terminated(pat) && p < |pat|
    ensures Classes(pat, Parse(pat, p).items)
    decreases |pat| - p
  {
    hide SetEnd;
    if pat[p] == 0 || (pat[p] == '$' as int && pat[p + 1] == 0) {
    } else if pat[p] == '(' as int {
      ParseClasses(pat, if pat[p + 1] == ')' as int then p + 2 else p + 1);
    } else if pat[p] == ')' as int {
      ParseClasses(pat, p + 1);
    } else if pat[p] == ESC && pat[p + 1] == 'b' as int {
      if pat[p + 2] != 0 && pat[p + 3] != 0 {
        ParseClasses(pat, p + 4);
      }
    } else if pat[p] == ESC && pat[p + 1] == 'f' as int {
      if pat[p + 2] == '[' as int && ClassEnd(pat, p + 2).At? {
        ParseClasses(pat, ClassEnd(pat, p + 2).ep);
      }
    } else if pat[p] == ESC && IsDigit(pat[p + 1]) {
      ParseClasses(pat, p + 2);
    } else if ClassEnd(pat, p).At? {
      var ep := ClassEnd(pat, p).ep;
      ParseClasses(pat, if RepAt(pat[ep]) == Once then ep else ep + 1);
    }
  }

  /** For every pattern and subject: matching fails exactly if there is no way, and otherwise it ends as the first way
      in greedy and lazy order does, with the captures of that way or its error. */
  lemma {:induction false} MatchIsBest(src: seq<Byte>, pat: seq<Byte>, s: nat, p: nat, caps: seq<Cap>)
    returns (w: seq<nat>)
    requires Terminated(pat) && s <= |src| && p < |pat| && CapsOk(src, s, caps)
    ensures Classes(pat, Parse(pat, p).items)
    ensures Best(src, pat, Parse(pat, p).items, Parse(pat, p).ending, s, caps, DoMatch(src, pat, s, p, caps), w)
    decreases |pat| - p, 1, 0
  {
    hide Best;
    ParseClasses(pat, p);
    w := [];
    if pat[p] == 0 || (pat[p] == '$' as int && pat[p + 1] == 0) {
      EndBest(src, pat, Parse(pat, p).ending, s, caps, DoMatch(src, pat, s, p, caps));
    } else if pat[p] == '(' as int || pat[p] == ')' as int {
      w := ParenthesisIsBest(src, pat, s, p, caps);
    } else if pat[p] == ESC && pat[p + 1] == 'b' as int {
      w := BalanceIsBest(src, pat, s, p, caps);
    } else if pat[p] == ESC && pat[p + 1] == 'f' as int {
      w := FrontierIsBest(src, pat, s, p, caps);
    } else if pat[p] == ESC && IsDigit(pat[p + 1]) {
      w := BackIsBest(src, pat, s, p, caps);
    } else if ClassEnd(pat, p).Malformed? {
      EndBest(src, pat, Parse(pat, p).ending, s, caps, DoMatch(src, pat, s, p, caps));
    } else {
      w := CharsIsBest(src, pat, s, p, ClassEnd(pat, p).ep, caps);
    }
  }

  /** What matching from `s` comes to: where the first way ends and with which captures, or its error, or a failure. */
  ghost predicate Yields(src: seq<Byte>, pat: seq<Byte>, p: nat, s: nat, r: Outcome)
    requires Terminated(pat) && p < |pat|
  {
    var plan := Parse(pat, p);
    Classes(pat, plan.items) && exists w :: Best(src, pat, plan.items, plan.ending, s, [], r, w)
  }

  lemma MatchYields(src: seq<Byte>, pat: seq<Byte>, s: nat, p: nat)
    requires Terminated(pat) && s <= |src| && p < |pat|
    ensures Yields(src, pat, p, s, DoMatch(src, pat, s, p, []))
  {
    hide DoMatch, Best, Parse, Classes;
    var w := MatchIsBest(src, pat, s, p, []);
  }

  /** It comes to one thing only. */
  lemma YieldsOnce(src: seq<Byte>, pat: seq<Byte>, p: nat, s: nat, r: Outcome, q: Outcome)
    requires Terminated(pat) && p < |pat| && Yields(src, pat, p, s, r) && Yields(src, pat, p, s, q)
    ensures r == q
  {
    hide Way, Parse, Classes;
    var plan := Parse(pat, p);
    var w :| Best(src, pat, plan.items, plan.ending, s, [], r, w);
    var v :| Best(src, pat, plan.items, plan.ending, s, [], q, v);
    PreferredStrict(plan.items, w, v);
  }

  lemma EndBest(src: seq<Byte>, pat: seq<Byte>, ending: Ending, s: nat, caps: seq<Cap>, r: Outcome)
    requires if ending == Anchored && s != |src| then r == Fail else Ends(src, ending, s, caps, r)
    ensures Best(src, pat, [], ending, s, caps, r, [])
  {
  }

  /** A way through all items is what the first one takes and a way through the rest, or the first is an error. */
  lemma WaySplit(src: seq<Byte>, pat: seq<Byte>, item: Item, rest: seq<Item>, ending: Ending, s: nat, caps: seq<Cap>,
          v: seq<nat>, r: Outcome)
    requires Classes(pat, [item] + rest)
    ensures Classes(pat, rest) && Sound(pat, item)
    ensures Way(src, pat, [item] + rest, ending, s, caps, v, r) <==>
              if v == [] then r.Raise? && Refuses(item, caps, r.error)
              else
                && s + v[0] <= |src| && Takes(src, pat, item, s, caps, v[0])
                && Way(src, pat, rest, ending, s + v[0], Leaves(item, s, caps), v[1..], r)
  {
    var items := [item] + rest;
    assert items[0] == item && items[1..] == rest;
    forall i | 0 <= i < |rest| ensures Sound(pat, rest[i]) {
      assert items[i + 1] == rest[i];
    }
  }

  lemma Split(pat: seq<Byte>, item: Item, rest: seq<Item>)
    requires Classes(pat, [item] + rest)
    ensures Classes(pat, rest) && Sound(pat, item)
  {
    WaySplit([], pat, item, rest, Free, 0, [], [], Fail);
  }

  // ---- items that can take one number of bytes at most

  /** Every way takes `n` bytes first. */
  ghost predicate Only(src: seq<Byte>, pat: seq<Byte>, item: Item, s: nat, caps: seq<Cap>, n: nat)
    requires Sound(pat, item)
  {
    && (forall m: nat :: s + m <= |src| && Takes(src, pat, item, s, caps, m) ==> m == n)
    && forall why :: !Refuses(item, caps, why)
  }

  /** What the rest comes to, the whole comes to. */
  lemma OnlyIsBest(src: seq<Byte>, pat: seq<Byte>, item: Item, rest: seq<Item>, ending: Ending, s: nat, caps: seq<Cap>,
          n: nat, r: Outcome, w: seq<nat>)
    requires Classes(pat, [item] + rest) && Classes(pat, rest) && Sound(pat, item)
    requires s + n <= |src| && Takes(src, pat, item, s, caps, n) && Only(src, pat, item, s, caps, n)
    requires Best(src, pat, rest, ending, s + n, Leaves(item, s, caps), r, w)
    ensures Best(src, pat, [item] + rest, ending, s, caps, r, [n] + w)
  {
    hide Way, Takes, Leaves, Refuses;
    var items := [item] + rest;
    assert items[1..] == rest && ([n] + w)[1..] == w;
    WaySplit(src, pat, item, rest, ending, s, caps, [n] + w, r);
    forall v, q | Way(src, pat, items, ending, s, caps, v, q)
      ensures !r.Fail? && ((v == [n] + w && q == r) || Preferred(items, [n] + w, v))
    {
      WaySplit(src, pat, item, rest, ending, s, caps, v, q);
      assert v != [] && v[0] == n;
      assert v == [n] + v[1..];
      assert Way(src, pat, rest, ending, s + n, Leaves(item, s, caps), v[1..], q);
    }
  }

  lemma NothingTaken(src: seq<Byte>, pat: seq<Byte>, item: Item, rest: seq<Item>, ending: Ending, s: nat,
          caps: seq<Cap>)
    requires Classes(pat, [item] + rest) && Sound(pat, item)
    requires forall m: nat :: s + m <= |src| ==> !Takes(src, pat, item, s, caps, m)
    requires forall why :: !Refuses(item, caps, why)
    ensures Best(src, pat, [item] + rest, ending, s, caps, Fail, [])
  {
    hide Takes, Refuses, Leaves;
    forall v, q ensures !Way(src, pat, [item] + rest, ending, s, caps, v, q) {
      WaySplit(src, pat, item, rest, ending, s, caps, v, q);
    }
  }

  lemma RefusedIsBest(src: seq<Byte>, pat: seq<Byte>, item: Item, rest: seq<Item>, ending: Ending, s: nat,
          caps: seq<Cap>, why: Failure)
    requires Classes(pat, [item] + rest) && Sound(pat, item)
    requires Refuses(item, caps, why)
    ensures Best(src, pat, [item] + rest, ending, s, caps, Raise(why), [])
  {
    hide Leaves, Way;
    var items := [item] + rest;
    WaySplit(src, pat, item, rest, ending, s, caps, [], Raise(why));
    forall v, q | Way(src, pat, items, ending, s, caps, v, q) ensures v == [] && q == Raise(why) {
      WaySplit(src, pat, item, rest, ending, s, caps, v, q);
    }
  }

  lemma {:induction false} LastOpenIs(caps: seq<Cap>)
    ensures if NoneOpen(caps) then LastOpen(caps) == -1 else Innermost(caps, LastOpen(caps))
  {
    if caps != [] && caps[|caps| - 1].len != UNFINISHED {
      LastOpenIs(caps[..|caps| - 1]);
    }
  }

  /** Closing as the matcher does it changes the innermost open capture. */
  lemma CloseLeaves(s: nat, caps: seq<Cap>)
    requires !NoneOpen(caps)
    ensures LastOpen(caps) >= 0
    ensures var l := LastOpen(caps); caps[l := caps[l].(len := s - caps[l].init)] == Leaves(Close, s, caps)
  {
    LastOpenIs(caps);
  }

  lemma {:induction false} ParenthesisIsBest(src: seq<Byte>, pat: seq<Byte>, s: nat, p: nat, caps: seq<Cap>)
    returns (w: seq<nat>)
    requires Terminated(pat) && s <= |src| && p < |pat| && CapsOk(src, s, caps)
    requires pat[p] == '(' as int || pat[p] == ')' as int
    requires Classes(pat, Parse(pat, p).items)
    ensures Best(src, pat, Parse(pat, p).items, Parse(pat, p).ending, s, caps, DoMatch(src, pat, s, p, caps), w)
    decreases |pat| - p, 0, 0
  {
    hide Best, Way;
    var item := if pat[p] == ')' as int then Close else if pat[p + 1] == ')' as int then Position else Open;
    var next := if item == Position then p + 2 else p + 1;
    var rest := Parse(pat, next);
    assert Parse(pat, p) == Then(item, rest);
    Split(pat, item, rest.items);
    w := [];
    if item == Close {
      LastOpenIs(caps);
      if NoneOpen(caps) {
        RefusedIsBest(src, pat, item, rest.items, rest.ending, s, caps, InvalidPatternCapture);
        return;
      }
      CloseLeaves(s, caps);
    } else if |caps| >= MAXCAPTURES {
      RefusedIsBest(src, pat, item, rest.items, rest.ending, s, caps, TooManyCaptures);
      return;
    }
    w := MatchIsBest(src, pat, s, next, Leaves(item, s, caps));
    assert DoMatch(src, pat, s, p, caps) == DoMatch(src, pat, s, next, Leaves(item, s, caps));
    OnlyIsBest(src, pat, item, rest.items, rest.ending, s, caps, 0, DoMatch(src, pat, s, p, caps), w);
    w := [0] + w;
  }

  /** The loop over the subject finds the end of the balanced piece. */
  lemma {:induction false} BalanceFinds(src: seq<Byte>, s: nat, t: nat, b: Byte, e: Byte)
    requires s + 1 <= t <= |src| && src[s] == b
    requires forall k :: s + 1 <= k <= t ==> OpenAt(src, s, k, b, e) > 0
    ensures var r := Balance(src, t, b, e, OpenAt(src, s, t, b, e));
            if r == -1 then forall k :: !BalancedTo(src, s, k, b, e) else BalancedTo(src, s, r, b, e)
    decreases |src| - t
  {
    if t < |src| {
      assert src[s + 1..t + 1] == src[s + 1..t] + [src[t]];
      assert multiset(src[s + 1..t + 1]) == multiset(src[s + 1..t]) + multiset{src[t]};
      if OpenAt(src, s, t + 1, b, e) > 0 {
        BalanceFinds(src, s, t + 1, b, e);
      } else {
        assert BalancedTo(src, s, t + 1, b, e);
      }
    }
  }

  lemma BalancedOnce(src: seq<Byte>, s: nat, t: nat, u: nat, b: Byte, e: Byte)
    requires BalancedTo(src, s, t, b, e) && BalancedTo(src, s, u, b, e)
    ensures t == u
  {
  }

  lemma {:induction false} BalanceIsBest(src: seq<Byte>, pat: seq<Byte>, s: nat, p: nat, caps: seq<Cap>)
    returns (w: seq<nat>)
    requires Terminated(pat) && s <= |src| && p < |pat| && CapsOk(src, s, caps)
    requires pat[p] == ESC && pat[p + 1] == 'b' as int && Classes(pat, Parse(pat, p).items)
    ensures Best(src, pat, Parse(pat, p).items, Parse(pat, p).ending, s, caps, DoMatch(src, pat, s, p, caps), w)
    decreases |pat| - p, 0, 0
  {
    hide Best, Way, BalancedTo;
    w := [];
    if pat[p + 2] == 0 || pat[p + 3] == 0 {
      EndBest(src, pat, Parse(pat, p).ending, s, caps, Raise(UnbalancedPattern));
      return;
    }
    var item := Balanced(pat[p + 2], pat[p + 3]);
    var rest := Parse(pat, p + 4);
    assert Parse(pat, p) == Then(item, rest);
    Split(pat, item, rest.items);
    var e := BalanceTakes(src, pat, s, item.b, item.e, caps);
    if e == -1 {
      NothingTaken(src, pat, item, rest.items, rest.ending, s, caps);
    } else {
      w := MatchIsBest(src, pat, e, p + 4, caps);
      OnlyIsBest(src, pat, item, rest.items, rest.ending, s, caps, e - s, DoMatch(src, pat, s, p, caps), w);
      w := [e - s] + w;
    }
  }

  /** What the matcher finds for `%b` is what the item takes. */
  lemma BalanceTakes(src: seq<Byte>, pat: seq<Byte>, s: nat, b: Byte, e: Byte, caps: seq<Cap>) returns (r: int)
    requires s <= |src| && b != 0
    ensures r == if ByteAt(src, s) != b then -1 else Balance(src, s + 1, b, e, 1)
    ensures r == -1 ==> forall m: nat :: s + m <= |src| ==> !Takes(src, pat, Balanced(b, e), s, caps, m)
    ensures r != -1 ==> s < r <= |src| && Takes(src, pat, Balanced(b, e), s, caps, r - s)
    ensures r != -1 ==> Only(src, pat, Balanced(b, e), s, caps, r - s)
  {
    r := if ByteAt(src, s) != b then -1 else Balance(src, s + 1, b, e, 1);
    if ByteAt(src, s) == b {
      assert src[s + 1..s + 1] == [];
      BalanceFinds(src, s, s + 1, b, e);
      if r != -1 {
        assert s + (r - s) == r;
        forall m: nat | s + m <= |src| && Takes(src, pat, Balanced(b, e), s, caps, m) ensures m == r - s {
          BalancedOnce(src, s, s + m, r, b, e);
        }
      }
    }
  }

  lemma {:induction false} FrontierIsBest(src: seq<Byte>, pat: seq<Byte>, s: nat, p: nat, caps: seq<Cap>)
    returns (w: seq<nat>)
    requires Terminated(pat) && s <= |src| && p < |pat| && CapsOk(src, s, caps)
    requires pat[p] == ESC && pat[p + 1] == 'f' as int && Classes(pat, Parse(pat, p).items)
    ensures Best(src, pat, Parse(pat, p).items, Parse(pat, p).ending, s, caps, DoMatch(src, pat, s, p, caps), w)
    decreases |pat| - p, 0, 0
  {
    hide Best, Way, BracketClass, IsClass;
    w := [];
    if pat[p + 2] != '[' as int || ClassEnd(pat, p + 2).Malformed? {
      EndBest(src, pat, Parse(pat, p).ending, s, caps, DoMatch(src, pat, s, p, caps));
      return;
    }
    var ep := ClassEnd(pat, p + 2).ep;
    var item := Frontier(p + 2, ep);
    var rest := Parse(pat, ep);
    assert Parse(pat, p) == Then(item, rest);
    Split(pat, item, rest.items);
    if FrontierAt(src, pat, s, p + 2, ep) {
      w := MatchIsBest(src, pat, s, ep, caps);
      OnlyIsBest(src, pat, item, rest.items, rest.ending, s, caps, 0, DoMatch(src, pat, s, p, caps), w);
      w := [0] + w;
    } else {
      NothingTaken(src, pat, item, rest.items, rest.ending, s, caps);
    }
  }

  /** Comparing the bytes is what a back reference asks for. */
  lemma SameTakes(src: seq<Byte>, pat: seq<Byte>, s: nat, l: int, caps: seq<Cap>, n: nat)
    requires s + n <= |src| && CapsOk(src, s, caps) && 0 <= l < |caps| && caps[l].len != UNFINISHED
    ensures Takes(src, pat, Back(l), s, caps, n) <==> SameAs(src, s, caps[l]) && n == caps[l].len
  {
    if caps[l].len == n {
      var copy, text := src[s..s + n], src[caps[l].init..caps[l].init + n];
      if Takes(src, pat, Back(l), s, caps, n) {
        forall k | 0 <= k < n ensures copy[k] == text[k] {
          assert copy[k] == src[s + k];
        }
        assert copy == text;
      } else if copy == text {
        forall k | s <= k < s + n ensures src[k] == src[caps[l].init + (k - s)] {
          assert src[k] == copy[k - s] && text[k - s] == src[caps[l].init + (k - s)];
        }
      }
    }
  }

  lemma {:induction false} BackIsBest(src: seq<Byte>, pat: seq<Byte>, s: nat, p: nat, caps: seq<Cap>)
    returns (w: seq<nat>)
    requires Terminated(pat) && s <= |src| && p < |pat| && CapsOk(src, s, caps)
    requires pat[p] == ESC && IsDigit(pat[p + 1]) && Classes(pat, Parse(pat, p).items)
    ensures Best(src, pat, Parse(pat, p).items, Parse(pat, p).ending, s, caps, DoMatch(src, pat, s, p, caps), w)
    decreases |pat| - p, 0, 0
  {
    hide Best, Way, Takes;
    var l := pat[p + 1] - '1' as int;
    var rest := Parse(pat, p + 2);
    assert Parse(pat, p) == Then(Back(l), rest);
    Split(pat, Back(l), rest.items);
    w := [];
    if !(0 <= l < |caps| && caps[l].len != UNFINISHED) {
      RefusedIsBest(src, pat, Back(l), rest.items, rest.ending, s, caps, InvalidCapture);
      return;
    }
    forall m: nat | s + m <= |src|
      ensures Takes(src, pat, Back(l), s, caps, m) <==> SameAs(src, s, caps[l]) && m == caps[l].len
    {
      SameTakes(src, pat, s, l, caps, m);
    }
    if SameAs(src, s, caps[l]) {
      var n := caps[l].len;
      w := MatchIsBest(src, pat, s + n, p + 2, caps);
      OnlyIsBest(src, pat, Back(l), rest.items, rest.ending, s, caps, n, DoMatch(src, pat, s, p, caps), w);
      w := [n] + w;
    } else {
      NothingTaken(src, pat, Back(l), rest.items, rest.ending, s, caps);
    }
  }

  // ---- classes and their repetitions

  /** The counts at which every repetition is there. */
  ghost predicate Runs(src: seq<Byte>, pat: seq<Byte>, p: nat, ep: nat, s: nat, n: nat)
    requires IsClass(pat, p, ep)
  {
    s + n <= |src| && forall k :: s <= k < s + n ==> Here(src, pat, k, p, ep)
  }

  /** Every way starts with a count in this range. */
  ghost predicate Counts(src: seq<Byte>, pat: seq<Byte>, items: seq<Item>, ending: Ending, s: nat, caps: seq<Cap>,
          lo: int, hi: int)
    requires Classes(pat, items)
  {
    forall v, q :: Way(src, pat, items, ending, s, caps, v, q) ==> v != [] && lo <= v[0] <= hi
  }

  /** The best way through the rest extends to the best way through all, if no preferred count leads anywhere. */
  lemma Chosen(src: seq<Byte>, pat: seq<Byte>, item: Item, rest: seq<Item>, ending: Ending, s: nat, caps: seq<Cap>,
          n: nat, r: Outcome, w: seq<nat>)
    requires Classes(pat, [item] + rest) && Classes(pat, rest) && Sound(pat, item) && item.Chars?
    requires s + n <= |src| && Takes(src, pat, item, s, caps, n) && !r.Fail?
    requires Best(src, pat, rest, ending, s + n, caps, r, w)
    requires if item.rep == Lazy then Counts(src, pat, [item] + rest, ending, s, caps, n, |src|)
             else Counts(src, pat, [item] + rest, ending, s, caps, 0, n)
    ensures Best(src, pat, [item] + rest, ending, s, caps, r, [n] + w)
  {
    hide ClassEnd, Way, Takes;
    var items := [item] + rest;
    assert items[1..] == rest && ([n] + w)[1..] == w;
    WaySplit(src, pat, item, rest, ending, s, caps, [n] + w, r);
    forall v, q | Way(src, pat, items, ending, s, caps, v, q)
      ensures (v == [n] + w && q == r) || Preferred(items, [n] + w, v)
    {
      WaySplit(src, pat, item, rest, ending, s, caps, v, q);
      if v[0] == n {
        assert v == [n] + v[1..];
        assert (v[1..] == w && q == r) || Preferred(rest, w, v[1..]);
      }
    }
  }

  /** A count from which the rest cannot be matched starts no way. */
  lemma NotWith(src: seq<Byte>, pat: seq<Byte>, item: Item, rest: seq<Item>, ending: Ending, s: nat, caps: seq<Cap>,
          n: nat, w: seq<nat>)
    requires Classes(pat, [item] + rest) && Classes(pat, rest) && item.Chars?
    requires Best(src, pat, rest, ending, s + n, caps, Fail, w)
    ensures forall v, q :: Way(src, pat, [item] + rest, ending, s, caps, v, q) ==> v != [] && v[0] != n
  {
    hide Takes;
    forall v, q | Way(src, pat, [item] + rest, ending, s, caps, v, q) ensures v != [] && v[0] != n {
      WaySplit(src, pat, item, rest, ending, s, caps, v, q);
    }
  }

  /** No way repeats the class beyond its run. */
  lemma CountBound(src: seq<Byte>, pat: seq<Byte>, item: Item, rest: seq<Item>, ending: Ending, s: nat, caps: seq<Cap>,
          n: nat)
    requires Classes(pat, [item] + rest) && Sound(pat, item) && item.Chars?
    requires s + n >= |src| || !Here(src, pat, s + n, item.p, item.ep)
    ensures Counts(src, pat, [item] + rest, ending, s, caps, 0, n)
  {
    hide ClassEnd;
    forall v, q | Way(src, pat, [item] + rest, ending, s, caps, v, q) ensures v != [] && 0 <= v[0] <= n {
      WaySplit(src, pat, item, rest, ending, s, caps, v, q);
    }
  }

  lemma NoWays(src: seq<Byte>, pat: seq<Byte>, item: Item, rest: seq<Item>, ending: Ending, s: nat, caps: seq<Cap>,
          lo: int, hi: int)
    requires Classes(pat, [item] + rest) && Counts(src, pat, [item] + rest, ending, s, caps, lo, hi) && item.Chars?
    requires forall n :: lo <= n <= hi && n >= 0 ==> !Allowed(item.rep, n)
    ensures Best(src, pat, [item] + rest, ending, s, caps, Fail, [])
  {
    hide ClassEnd, Here;
    forall v, q ensures !Way(src, pat, [item] + rest, ending, s, caps, v, q) {
      if Way(src, pat, [item] + rest, ending, s, caps, v, q) {
        assert v != [] && lo <= v[0] <= hi;
        WaySplit(src, pat, item, rest, ending, s, caps, v, q);
      }
    }
  }

  /** From `off + i` repetitions downwards, the first count that leads anywhere is the largest that does. */
  lemma {:induction false} TryDownIsBest(src: seq<Byte>, pat: seq<Byte>, s: nat, off: nat, i: nat, p: nat, ep: nat,
          rest: seq<Item>, ending: Ending, caps: seq<Cap>)
    returns (n: nat, w: seq<nat>)
    requires IsClass(pat, p, ep) && pat[ep] != 0 && CapsOk(src, s + off, caps)
               && Parse(pat, ep + 1) == Parsed(rest, ending)
    requires var item := Chars(p, ep, RepAt(pat[ep]));
             && Classes(pat, [item] + rest) && Runs(src, pat, p, ep, s, off + i)
             && Counts(src, pat, [item] + rest, ending, s, caps, 0, off + i)
    ensures Classes(pat, rest)
    ensures var item := Chars(p, ep, RepAt(pat[ep]));
            var r := TryDown(src, pat, s + off, i, p, ep, caps);
            if r.Fail? then Counts(src, pat, [item] + rest, ending, s, caps, 0, off - 1)
            else
              && off <= n <= off + i && Best(src, pat, rest, ending, s + n, caps, r, w)
              && Counts(src, pat, [item] + rest, ending, s, caps, 0, n)
    decreases |pat| - p, 0, i
  {
    hide ClassEnd, Way, Here;
    var item := Chars(p, ep, RepAt(pat[ep]));
    n := off + i;
    w := MatchIsBest(src, pat, s + n, ep + 1, caps);
    var r := DoMatch(src, pat, s + n, ep + 1, caps);
    if r.Fail? {
      NotWith(src, pat, item, rest, ending, s, caps, n, w);
      if i > 0 {
        n, w := TryDownIsBest(src, pat, s, off, i - 1, p, ep, rest, ending, caps);
      }
    }
  }

  /** From `n` repetitions upwards, the first count that leads anywhere is the smallest that does. */
  lemma {:induction false} MinExpandIsBest(src: seq<Byte>, pat: seq<Byte>, s: nat, n: nat, p: nat, ep: nat,
          rest: seq<Item>, ending: Ending, caps: seq<Cap>)
    returns (m: nat, w: seq<nat>)
    requires IsClass(pat, p, ep) && pat[ep] == '-' as int && CapsOk(src, s + n, caps)
               && Parse(pat, ep + 1) == Parsed(rest, ending)
    requires var item := Chars(p, ep, Lazy);
             && Classes(pat, [item] + rest) && Runs(src, pat, p, ep, s, n)
             && Counts(src, pat, [item] + rest, ending, s, caps, n, |src|)
    ensures Classes(pat, rest)
    ensures var item := Chars(p, ep, Lazy);
            var r := MinExpand(src, pat, s + n, p, ep, caps);
            if r.Fail? then Counts(src, pat, [item] + rest, ending, s, caps, 1, 0)
            else
              && Runs(src, pat, p, ep, s, m) && Best(src, pat, rest, ending, s + m, caps, r, w)
              && Counts(src, pat, [item] + rest, ending, s, caps, m, |src|)
    decreases |pat| - p, 0, |src| - s - n
  {
    hide ClassEnd, Way, Here;
    var item := Chars(p, ep, Lazy);
    m := n;
    w := MatchIsBest(src, pat, s + n, ep + 1, caps);
    var r := DoMatch(src, pat, s + n, ep + 1, caps);
    if r.Fail? {
      NotWith(src, pat, item, rest, ending, s, caps, n, w);
      if Here(src, pat, s + n, p, ep) {
        HereIs(src, pat, s + n, p, ep);
        m, w := MinExpandIsBest(src, pat, s, n + 1, p, ep, rest, ending, caps);
      } else {
        CountBound(src, pat, item, rest, ending, s, caps, n);
      }
    }
  }

  lemma HereIs(src: seq<Byte>, pat: seq<Byte>, s: nat, p: nat, ep: nat)
    requires IsClass(pat, p, ep) && Here(src, pat, s, p, ep)
    ensures s < |src|
  {
  }

  lemma CharsIsBest(src: seq<Byte>, pat: seq<Byte>, s: nat, p: nat, ep: nat, caps: seq<Cap>) returns (w: seq<nat>)
    requires IsClass(pat, p, ep) && s <= |src| && CapsOk(src, s, caps) && Classes(pat, Parse(pat, p).items)
    requires var rep := RepAt(pat[ep]);
             Parse(pat, p) == Then(Chars(p, ep, rep), Parse(pat, if rep == Once then ep else ep + 1))
    requires DoMatch(src, pat, s, p, caps) == MatchItem(src, pat, s, p, ep, caps)
    ensures Best(src, pat, Parse(pat, p).items, Parse(pat, p).ending, s, caps, DoMatch(src, pat, s, p, caps), w)
    decreases |pat| - p, 0, |src| + 2
  {
    hide Best, Way;
    var ending := Parse(pat, p).ending;
    var rep := RepAt(pat[ep]);
    var rest := Parse(pat, if rep == Once then ep else ep + 1).items;
    Split(pat, Chars(p, ep, rep), rest);
    match rep
    case Once => w := OnceIsBest(src, pat, s, p, ep, rest, ending, caps);
    case Optional => w := OptionalIsBest(src, pat, s, p, ep, rest, ending, caps);
    case Star => w := StarIsBest(src, pat, s, p, ep, rest, ending, caps);
    case Plus => w := PlusIsBest(src, pat, s, p, ep, rest, ending, caps);
    case Lazy => w := LazyIsBest(src, pat, s, p, ep, rest, ending, caps);
  }

  lemma OnceIsBest(src: seq<Byte>, pat: seq<Byte>, s: nat, p: nat, ep: nat, rest: seq<Item>, ending: Ending,
          caps: seq<Cap>) returns (w: seq<nat>)
    requires IsClass(pat, p, ep) && s <= |src| && CapsOk(src, s, caps) && RepAt(pat[ep]) == Once
               && Parse(pat, ep) == Parsed(rest, ending)
    requires Classes(pat, [Chars(p, ep, Once)] + rest) && Classes(pat, rest)
    ensures Best(src, pat, [Chars(p, ep, Once)] + rest, ending, s, caps, MatchItem(src, pat, s, p, ep, caps), w)
    decreases |pat| - p, 0, |src| + 1
  {
    hide ClassEnd, Way, Here, DoMatch, Best;
    w := [];
    if Here(src, pat, s, p, ep) {
      HereIs(src, pat, s, p, ep);
      w := MatchIsBest(src, pat, s + 1, ep, caps);
      OnlyIsBest(src, pat, Chars(p, ep, Once), rest, ending, s, caps, 1, MatchItem(src, pat, s, p, ep, caps), w);
      w := [1] + w;
    } else {
      NothingTaken(src, pat, Chars(p, ep, Once), rest, ending, s, caps);
    }
  }

  lemma OptionalCounts(src: seq<Byte>, pat: seq<Byte>, item: Item, rest: seq<Item>, ending: Ending, s: nat,
          caps: seq<Cap>)
    requires Classes(pat, [item] + rest) && item.Chars? && item.rep == Optional
    ensures Counts(src, pat, [item] + rest, ending, s, caps, 0, 1)
  {
    hide ClassEnd, Here;
    forall v, q | Way(src, pat, [item] + rest, ending, s, caps, v, q) ensures v != [] && 0 <= v[0] <= 1 {
      WaySplit(src, pat, item, rest, ending, s, caps, v, q);
    }
  }

  lemma OptionalIsBest(src: seq<Byte>, pat: seq<Byte>, s: nat, p: nat, ep: nat, rest: seq<Item>, ending: Ending,
          caps: seq<Cap>) returns (w: seq<nat>)
    requires IsClass(pat, p, ep) && s <= |src| && CapsOk(src, s, caps) && RepAt(pat[ep]) == Optional
               && Parse(pat, ep + 1) == Parsed(rest, ending)
    requires Classes(pat, [Chars(p, ep, Optional)] + rest) && Classes(pat, rest)
    ensures Best(src, pat, [Chars(p, ep, Optional)] + rest, ending, s, caps, MatchItem(src, pat, s, p, ep, caps), w)
    decreases |pat| - p, 0, |src| + 1
  {
    hide ClassEnd, Way, Here, DoMatch;
    var item := Chars(p, ep, Optional);
    OptionalCounts(src, pat, item, rest, ending, s, caps);
    if Here(src, pat, s, p, ep) {
      HereIs(src, pat, s, p, ep);
      w := MatchIsBest(src, pat, s + 1, ep + 1, caps);
      if !DoMatch(src, pat, s + 1, ep + 1, caps).Fail? {
        Chosen(src, pat, item, rest, ending, s, caps, 1, DoMatch(src, pat, s + 1, ep + 1, caps), w);
        w := [1] + w;
        return;
      }
      NotWith(src, pat, item, rest, ending, s, caps, 1, w);
    } else {
      CountBound(src, pat, item, rest, ending, s, caps, 0);
    }
    assert Counts(src, pat, [item] + rest, ending, s, caps, 0, 0);
    w := MatchIsBest(src, pat, s, ep + 1, caps);
    if DoMatch(src, pat, s, ep + 1, caps).Fail? {
      NotWith(src, pat, item, rest, ending, s, caps, 0, w);
      NoWays(src, pat, item, rest, ending, s, caps, 0, -1);
      w := [];
    } else {
      Chosen(src, pat, item, rest, ending, s, caps, 0, DoMatch(src, pat, s, ep + 1, caps), w);
      w := [0] + w;
    }
  }

  lemma StarIsBest(src: seq<Byte>, pat: seq<Byte>, s: nat, p: nat, ep: nat, rest: seq<Item>, ending: Ending,
          caps: seq<Cap>) returns (w: seq<nat>)
    requires IsClass(pat, p, ep) && s <= |src| && CapsOk(src, s, caps) && RepAt(pat[ep]) == Star
               && Parse(pat, ep + 1) == Parsed(rest, ending)
    requires Classes(pat, [Chars(p, ep, Star)] + rest) && Classes(pat, rest)
    ensures Best(src, pat, [Chars(p, ep, Star)] + rest, ending, s, caps, MatchItem(src, pat, s, p, ep, caps), w)
    decreases |pat| - p, 0, |src| + 1
  {
    hide ClassEnd, Way, Here, DoMatch, Best, TryDown;
    var item := Chars(p, ep, Star);
    var i := Run(src, pat, s, p, ep);
    CountBound(src, pat, item, rest, ending, s, caps, i);
    var n;
    n, w := TryDownIsBest(src, pat, s, 0, i, p, ep, rest, ending, caps);
    if TryDown(src, pat, s, i, p, ep, caps).Fail? {
      NoWays(src, pat, item, rest, ending, s, caps, 0, -1);
      w := [];
    } else {
      Chosen(src, pat, item, rest, ending, s, caps, n, TryDown(src, pat, s, i, p, ep, caps), w);
      w := [n] + w;
    }
  }

  lemma PlusIsBest(src: seq<Byte>, pat: seq<Byte>, s: nat, p: nat, ep: nat, rest: seq<Item>, ending: Ending,
          caps: seq<Cap>) returns (w: seq<nat>)
    requires IsClass(pat, p, ep) && s <= |src| && CapsOk(src, s, caps) && RepAt(pat[ep]) == Plus
               && Parse(pat, ep + 1) == Parsed(rest, ending)
    requires Classes(pat, [Chars(p, ep, Plus)] + rest) && Classes(pat, rest)
    ensures Best(src, pat, [Chars(p, ep, Plus)] + rest, ending, s, caps, MatchItem(src, pat, s, p, ep, caps), w)
    decreases |pat| - p, 0, |src| + 1
  {
    hide ClassEnd, Way, Here, DoMatch, Best, TryDown;
    var item := Chars(p, ep, Plus);
    w := [];
    if !Here(src, pat, s, p, ep) {
      CountBound(src, pat, item, rest, ending, s, caps, 0);
      NoWays(src, pat, item, rest, ending, s, caps, 0, 0);
    } else {
      HereIs(src, pat, s, p, ep);
      var i := Run(src, pat, s + 1, p, ep);
      CountBound(src, pat, item, rest, ending, s, caps, 1 + i);
      var n;
      n, w := TryDownIsBest(src, pat, s, 1, i, p, ep, rest, ending, caps);
      if TryDown(src, pat, s + 1, i, p, ep, caps).Fail? {
        NoWays(src, pat, item, rest, ending, s, caps, 0, 0);
        w := [];
      } else {
        Chosen(src, pat, item, rest, ending, s, caps, n, TryDown(src, pat, s + 1, i, p, ep, caps), w);
        w := [n] + w;
      }
    }
  }

  lemma LazyIsBest(src: seq<Byte>, pat: seq<Byte>, s: nat, p: nat, ep: nat, rest: seq<Item>, ending: Ending,
          caps: seq<Cap>) returns (w: seq<nat>)
    requires IsClass(pat, p, ep) && s <= |src| && CapsOk(src, s, caps) && RepAt(pat[ep]) == Lazy
               && Parse(pat, ep + 1) == Parsed(rest, ending)
    requires Classes(pat, [Chars(p, ep, Lazy)] + rest) && Classes(pat, rest)
    ensures Best(src, pat, [Chars(p, ep, Lazy)] + rest, ending, s, caps, MatchItem(src, pat, s, p, ep, caps), w)
    decreases |pat| - p, 0, |src| + 1
  {
    hide ClassEnd, Way, Here, DoMatch, Best, MinExpand;
    var item := Chars(p, ep, Lazy);
    LazyCounts(src, pat, item, rest, ending, s, caps);
    var n;
    n, w := MinExpandIsBest(src, pat, s, 0, p, ep, rest, ending, caps);
    if MinExpand(src, pat, s, p, ep, caps).Fail? {
      NoWays(src, pat, item, rest, ending, s, caps, 1, 0);
      w := [];
    } else {
      Chosen(src, pat, item, rest, ending, s, caps, n, MinExpand(src, pat, s, p, ep, caps), w);
      w := [n] + w;
    }
  }

  lemma LazyCounts(src: seq<Byte>, pat: seq<Byte>, item: Item, rest: seq<Item>, ending: Ending, s: nat, caps: seq<Cap>)
    requires Classes(pat, [item] + rest) && item.Chars?
    ensures Counts(src, pat, [item] + rest, ending, s, caps, 0, |src|)
  {
    hide ClassEnd, Here;
    forall v, q | Way(src, pat, [item] + rest, ending, s, caps, v, q) ensures v != [] && 0 <= v[0] <= |src| {
      WaySplit(src, pat, item, rest, ending, s, caps, v, q);
    }
  }
}
