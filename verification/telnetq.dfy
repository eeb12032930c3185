/** The Q method for one option in one direction: two ends, and the requests in flight between them (libtelnet.c). */
module TelnetQ {

  datatype Q = No | Yes | WantNo | WantYes | WantNoOp | WantYesOp

  /** A request or an answer: WILL and DO enable, WONT and DONT disable. */
  datatype Sign = Enable | Disable

  datatype Reply = Silent | Reply(sign: Sign)

  /** What an end does with a sign from the other: its new state, and what it answers. */
  function Receive(x: Q, m: Sign, supported: bool): (Q, Reply) {
    match m
    case Enable =>
      (match x
       case No => if supported then (Yes, Reply(Enable)) else (No, Reply(Disable))
       case Yes => (Yes, Silent)
       case WantNo => (No, Silent)
       case WantNoOp => (Yes, Silent)
       case WantYes => (Yes, Silent)
       case WantYesOp => (WantNo, Reply(Disable)))
    case Disable =>
      (match x
       case No => (No, Silent)
       case Yes => (No, Reply(Disable))
       case WantNo => (No, Silent)
       case WantNoOp => (WantYes, Silent)
       case WantYes => (No, Silent)
       case WantYesOp => (No, Silent))
  }

  /** An answer that no end following the rules gives: the other end refuses to be disabled. */
  predicate Refused(x: Q, m: Sign) { m == Enable && (x == WantNo || x == WantNoOp) }

  /** What an end does when its program asks for the option, or asks to drop it. */
  function Ask(x: Q, m: Sign): (Q, Reply) {
    match m
    case Enable =>
      (match x
       case No => (WantYes, Reply(Enable))
       case WantNo => (WantNoOp, Silent)
       case WantYesOp => (WantYes, Silent)
       case Yes => (Yes, Silent)
       case WantYes => (WantYes, Silent)
       case WantNoOp => (WantNoOp, Silent))
    case Disable =>
      (match x
       case Yes => (WantNo, Reply(Disable))
       case WantYes => (WantYesOp, Silent)
       case WantNoOp => (WantNo, Silent)
       case No => (No, Silent)
       case WantNo => (WantNo, Silent)
       case WantYesOp => (WantYesOp, Silent))
  }

  // ---- two ends

  /** The ends, and what is in flight from each to the other, oldest first. */
  datatype Pair = Pair(x: Q, y: Q, xy: seq<Sign>, yx: seq<Sign>)

  datatype Step = AskX(m: Sign) | AskY(m: Sign) | ToX(supported: bool) | ToY(supported: bool)

  function Sent(r: Reply): seq<Sign> { if r.Silent? then [] else [r.sign] }

  predicate Possible(c: Pair, step: Step) {
    (step.ToX? ==> c.yx != []) && (step.ToY? ==> c.xy != [])
  }

  function After(c: Pair, step: Step): Pair
    requires Possible(c, step)
  {
    match step
    case AskX(m) => var (x, r) := Ask(c.x, m); c.(x := x, xy := c.xy + Sent(r))
    case AskY(m) => var (y, r) := Ask(c.y, m); c.(y := y, yx := c.yx + Sent(r))
    case ToX(sup) => var (x, r) := Receive(c.x, c.yx[0], sup); c.(x := x, yx := c.yx[1..], xy := c.xy + Sent(r))
    case ToY(sup) => var (y, r) := Receive(c.y, c.xy[0], sup); c.(y := y, xy := c.xy[1..], yx := c.yx + Sent(r))
  }

  const START := Pair(No, No, [], [])

  predicate Wants(q: Q) { q == WantYes || q == WantYesOp }

  predicate Drops(q: Q) { q == WantNo || q == WantNoOp }

  /** The contents of a channel, as far as they matter. */
  datatype Transit = Empty | One(m: Sign) | Two(first: Sign, last: Sign) | Many

  function InTransit(s: seq<Sign>): Transit {
    match |s| { case 0 => Empty case 1 => One(s[0]) case 2 => Two(s[0], s[1]) case _ => Many }
  }

  /** Everything that can be on its way between two ends of which neither has lost a request. */
  predicate Coherent(c: Pair) { CoherentWires(c.x, c.y, InTransit(c.xy), InTransit(c.yx)) }

  predicate CoherentWires(x: Q, y: Q, xy: Transit, yx: Transit) {
    var e, d, de, ed := One(Enable), One(Disable), Two(Disable, Enable), Two(Enable, Disable);
    if x == No && y == No then xy == Empty && yx == Empty
    else if x == Yes && y == Yes then xy == Empty && yx == Empty
    else if x == No && Drops(y) then xy == d && yx == Empty
    else if Drops(x) && y == No then xy == Empty && yx == d
    else if x == No && Wants(y) then (xy == Empty && yx == e) || (xy == d && yx == Empty)
    else if Wants(x) && y == No then (xy == e && yx == Empty) || (xy == Empty && yx == d)
    else if Drops(x) && Drops(y) then xy == d && yx == d
    else if Drops(x) && Wants(y) then (xy == Empty && yx == de) || (xy == ed && yx == Empty)
    else if Wants(x) && Drops(y) then (xy == de && yx == Empty) || (xy == Empty && yx == ed)
    else if Drops(x) && y == Yes then xy == d && yx == Empty
    else if x == Yes && Drops(y) then xy == Empty && yx == d
    else if Wants(x) && Wants(y) then (xy == e && yx == e) || (xy == Empty && yx == de) || (xy == de && yx == Empty)
    else if Wants(x) && y == Yes then xy == Empty && yx == e
    else if x == Yes && Wants(y) then xy == e && yx == Empty
    else false
  }

  /** And everything that can be on its way after one has. */
  predicate Parted(c: Pair) { PartedWires(c.x, c.y, InTransit(c.xy), InTransit(c.yx)) }

  predicate PartedWires(x: Q, y: Q, xy: Transit, yx: Transit) {
    var e, d := One(Enable), One(Disable);
    if Drops(x) && Wants(y) then (xy == d && yx == Empty) || (xy == Empty && (yx == d || yx == e))
    else if Wants(x) && Drops(y) then ((xy == d || xy == e) && yx == Empty) || (xy == Empty && yx == d)
    else if Wants(x) && Wants(y) then (xy == Empty && (yx == Empty || yx == e)) || (xy == e && yx == Empty)
    else
      && xy == Empty && yx == Empty
      && ((x == No && (Drops(y) || Wants(y))) || (y == No && (Drops(x) || Wants(x)))
          || (x == Yes && Wants(y)) || (y == Yes && Wants(x)))
  }

  /** How many deliveries a coherent pair can still see: none once both ends agree. */
  function Work(c: Pair): nat { WorkWires(c.x, c.y, InTransit(c.xy), InTransit(c.yx)) }

  function WorkWires(x: Q, y: Q, xy: Transit, yx: Transit): nat {
    var wx, wy := if x == WantYesOp then 2 else 0, if y == WantYesOp then 2 else 0;
    if xy == Empty && yx == Empty then 0
    else if Wants(x) && Wants(y) then
      if xy == Empty then 3 + wy else if yx == Empty then 3 + wx else if wx > wy then 2 + wx else 2 + wy
    else if Drops(x) && Drops(y) then 2
    else if Drops(x) && Wants(y) then if xy == Empty then 3 + wy else 3
    else if Wants(x) && Drops(y) then if yx == Empty then 3 + wx else 3
    else if (Drops(x) && y == Yes) || (x == Yes && Drops(y)) then 2
    else if Wants(x) && y == Yes then 1 + wx
    else if x == Yes && Wants(y) then 1 + wy
    else if Wants(x) && y == No then if yx == Empty then 2 + wx else 1
    else if x == No && Wants(y) then if xy == Empty then 2 + wy else 1
    else 1
  }

  /** The same after a request was lost: what is in flight, and the one answer it can draw. */
  function PartedWork(c: Pair): nat { PartedWorkWires(c.x, c.y, InTransit(c.xy), InTransit(c.yx)) }

  function PartedWorkWires(x: Q, y: Q, xy: Transit, yx: Transit): nat {
    if xy == Empty && yx == Empty then 0
    else if (x == WantYesOp && yx == One(Enable)) || (y == WantYesOp && xy == One(Enable)) then 2
    else 1
  }

  function Left(c: Pair): nat { if Coherent(c) then Work(c) else PartedWork(c) }

  predicate Sound(c: Pair) { Coherent(c) || Parted(c) }

  predicate Delivery(step: Step) { step.ToX? || step.ToY? }

  /** The delivery an end must take as a protocol error. */
  predicate Refusal(c: Pair, step: Step)
    requires Possible(c, step)
  {
    (step.ToX? && Refused(c.x, c.yx[0])) || (step.ToY? && Refused(c.y, c.xy[0]))
  }

  /** The end learns that an option is off which its program has asked for again meanwhile: it counts itself as
      waiting for it, and does not ask. */
  predicate Forgets(c: Pair, step: Step)
    requires Possible(c, step)
  {
    (step.ToX? && c.x == WantNoOp && c.yx[0] == Disable) || (step.ToY? && c.y == WantNoOp && c.xy[0] == Disable)
  }

  function WireSent(w: Transit, r: Reply): Transit {
    if r.Silent? then w else match w { case Empty => One(r.sign) case One(m) => Two(m, r.sign) case _ => Many }
  }

  function WireTail(w: Transit): Transit { match w { case Two(_, n) => One(n) case _ => Empty } }

  lemma WireAfterSent(s: seq<Sign>, r: Reply)
    ensures InTransit(s + Sent(r)) == WireSent(InTransit(s), r)
  {
  }

  lemma WireAfterTail(s: seq<Sign>)
    requires s != [] && |s| <= 2
    ensures InTransit(s[1..]) == WireTail(InTransit(s))
    ensures s[0] == if InTransit(s).One? then InTransit(s).m else InTransit(s).first
  {
  }

  lemma AskXCoherent(c: Pair, m: Sign)
    requires Coherent(c)
    ensures Coherent(After(c, AskX(m)))
  {
    WireAfterSent(c.xy, Ask(c.x, m).1);
    hide InTransit, Sent;
  }

  /** The wires after a delivery to `y`. */
  lemma ToYWires(c: Pair, sup: bool)
    requires 0 < |c.xy| <= 2
    ensures var (w, c') := (InTransit(c.xy), After(c, ToY(sup)));
            && c.xy[0] == (if w.One? then w.m else w.first)
            && InTransit(c'.xy) == WireTail(w)
            && InTransit(c'.yx) == WireSent(InTransit(c.yx), Receive(c.y, c.xy[0], sup).1)
  {
    WireAfterTail(c.xy);
    WireAfterSent(c.yx, Receive(c.y, c.xy[0], sup).1);
  }

  function Front(w: Transit): Sign
    requires w.One? || w.Two?
  {
    if w.One? then w.m else w.first
  }

  lemma DeliveredCoherent(x: Q, y: Q, w: Transit, v: Transit, sup: bool)
    requires CoherentWires(x, y, w, v) && w != Empty
    ensures (w.One? || w.Two?) && !Refused(y, Front(w))
    ensures var (y', r) := Receive(y, Front(w), sup);
            var (w', v') := (WireTail(w), WireSent(v, r));
            if y == WantNoOp && Front(w) == Disable then PartedWires(x, y', w', v')
                && PartedWorkWires(x, y', w', v') < WorkWires(x, y, w, v)
            else CoherentWires(x, y', w', v') && WorkWires(x, y', w', v') < WorkWires(x, y, w, v)
  {
  }

  lemma ToYCoherent(c: Pair, sup: bool)
    requires Coherent(c) && c.xy != []
    ensures var c' := After(c, ToY(sup));
            && !Refused(c.y, c.xy[0])
            && (if Forgets(c, ToY(sup)) then Parted(c') && PartedWork(c') < Work(c)
                else Coherent(c') && Work(c') < Work(c))
  {
    assert !InTransit(c.xy).Empty?;
    DeliveredCoherent(c.x, c.y, InTransit(c.xy), InTransit(c.yx), sup);
    ToYWires(c, sup);
    hide InTransit, Sent, CoherentWires, PartedWires, WorkWires, PartedWorkWires;
  }

  function Swapped(c: Pair): Pair { Pair(c.y, c.x, c.yx, c.xy) }

  lemma SwappedSound(c: Pair)
    ensures Coherent(Swapped(c)) <==> Coherent(c)
    ensures Parted(Swapped(c)) <==> Parted(c)
    ensures Coherent(c) ==> Work(Swapped(c)) == Work(c)
    ensures PartedWork(Swapped(c)) == PartedWork(c)
  {
    hide InTransit;
  }

  lemma AskCoherent(c: Pair, step: Step)
    requires Coherent(c) && !Delivery(step)
    ensures Coherent(After(c, step))
  {
    hide Coherent, Parted, Work, PartedWork;
    if step.AskX? {
      AskXCoherent(c, step.m);
    } else {
      SwappedSound(c);
      AskXCoherent(Swapped(c), step.m);
      assert After(Swapped(c), AskX(step.m)) == Swapped(After(c, step));
      SwappedSound(After(c, step));
    }
  }

  lemma NotBoth(c: Pair)
    ensures !(Coherent(c) && Parted(c))
  {
    hide InTransit;
  }

  /** A delivery to a coherent pair is never a refusal, brings it nearer to silence, and parts it exactly if an end
      forgets to ask. */
  lemma DeliverySound(c: Pair, step: Step)
    requires Coherent(c) && Possible(c, step) && Delivery(step)
    ensures !Refusal(c, step) && Left(After(c, step)) < Left(c)
    ensures if Forgets(c, step) then Parted(After(c, step)) else Coherent(After(c, step))
  {
    hide Coherent, Parted, Work, PartedWork;
    var c' := After(c, step);
    match step {
      case ToX(sup) =>
        SwappedSound(c);
        ToYCoherent(Swapped(c), sup);
        assert After(Swapped(c), ToY(sup)) == Swapped(c');
        SwappedSound(c');
      case ToY(sup) => ToYCoherent(c, sup);
    }
    NotBoth(c');
  }

  lemma PartedAskX(c: Pair, m: Sign)
    requires Parted(c)
    ensures Parted(After(c, AskX(m)))
  {
    WireAfterSent(c.xy, Ask(c.x, m).1);
    hide InTransit, Sent;
  }

  lemma PartedToY(c: Pair, sup: bool)
    requires Parted(c) && c.xy != []
    ensures var c' := After(c, ToY(sup)); Parted(c') && PartedWork(c') < PartedWork(c)
  {
    assert |c.xy| == 1;
    ToYWires(c, sup);
    assert !InTransit(c.xy).Empty?;
    hide InTransit, Sent;
  }

  /** Nothing the programs or the channel do mends a parted pair. */
  lemma PartedStays(c: Pair, step: Step)
    requires Parted(c) && Possible(c, step)
    ensures Parted(After(c, step))
    ensures Delivery(step) ==> PartedWork(After(c, step)) < PartedWork(c)
  {
    hide Parted, PartedWork;
    SwappedSound(c);
    SwappedSound(After(c, step));
    match step {
      case AskX(m) => PartedAskX(c, m);
      case AskY(m) =>
        PartedAskX(Swapped(c), m);
        assert After(Swapped(c), AskX(m)) == Swapped(After(c, step));
      case ToX(sup) =>
        PartedToY(Swapped(c), sup);
        assert After(Swapped(c), ToY(sup)) == Swapped(After(c, step));
      case ToY(sup) => PartedToY(c, sup);
    }
  }

  // ---- whole runs

  /** Steps that can be taken one after the other. */
  predicate IsRun(c: Pair, steps: seq<Step>)
    decreases |steps|
  {
    steps == [] || (Possible(c, steps[0]) && IsRun(After(c, steps[0]), steps[1..]))
  }

  function End(c: Pair, steps: seq<Step>): Pair
    requires IsRun(c, steps)
    decreases |steps|
  {
    if steps == [] then c else End(After(c, steps[0]), steps[1..])
  }

  /** Somewhere in the run an end forgets to ask. */
  predicate Forgetful(c: Pair, steps: seq<Step>)
    requires IsRun(c, steps)
    decreases |steps|
  {
    steps != [] && (Forgets(c, steps[0]) || Forgetful(After(c, steps[0]), steps[1..]))
  }

  predicate NeverRefused(c: Pair, steps: seq<Step>)
    requires IsRun(c, steps)
    decreases |steps|
  {
    steps == [] || (!Refusal(c, steps[0]) && NeverRefused(After(c, steps[0]), steps[1..]))
  }

  lemma {:induction false} PartedRun(c: Pair, steps: seq<Step>)
    requires Parted(c) && IsRun(c, steps)
    ensures Parted(End(c, steps))
    decreases |steps|
  {
    hide Parted;
    if steps != [] {
      PartedStays(c, steps[0]);
      PartedRun(After(c, steps[0]), steps[1..]);
    }
  }

  /** A run parts the ends for good if an end forgets in it, and else keeps them coherent and refuses nothing. */
  lemma {:induction false} RunSound(c: Pair, steps: seq<Step>)
    requires Coherent(c) && IsRun(c, steps)
    ensures if Forgetful(c, steps) then Parted(End(c, steps)) else Coherent(End(c, steps)) && NeverRefused(c, steps)
    decreases |steps|
  {
    hide Coherent, Parted, Left;
    if steps != [] {
      if Delivery(steps[0]) {
        DeliverySound(c, steps[0]);
      } else {
        AskCoherent(c, steps[0]);
      }
      if Forgets(c, steps[0]) {
        PartedRun(After(c, steps[0]), steps[1..]);
      } else {
        RunSound(After(c, steps[0]), steps[1..]);
      }
    }
  }

  predicate Agreed(c: Pair) { c.x == c.y && (c.x == Yes || c.x == No) }

  predicate Quiet(c: Pair) { c.xy == [] && c.yx == [] }

  lemma QuietAgreed(c: Pair)
    requires Sound(c) && Quiet(c)
    ensures Agreed(c) <==> Coherent(c)
  {
  }

  /** The exact condition for the agreement the Q method promises, over every run of requests and deliveries: with
      nothing in flight both ends hold the option enabled or both hold it disabled if and only if neither end has
      ever forgotten to ask. */
  lemma AgreementExact(c: Pair, steps: seq<Step>)
    requires Coherent(c) && IsRun(c, steps) && Quiet(End(c, steps))
    ensures Agreed(End(c, steps)) <==> !Forgetful(c, steps)
  {
    hide Coherent, Parted, IsRun, End, Forgetful;
    RunSound(c, steps);
    NotBoth(End(c, steps));
    QuietAgreed(End(c, steps));
  }

  /** Once the programs stop asking, at most five deliveries are left. */
  lemma {:induction false} DiesOut(c: Pair, steps: seq<Step>)
    requires Sound(c) && IsRun(c, steps) && forall i :: 0 <= i < |steps| ==> Delivery(steps[i])
    ensures |steps| <= Left(c) <= 5
    decreases |steps|
  {
    hide Coherent, Parted, Work, PartedWork;
    LeftFew(c);
    if steps != [] {
      SoundDelivery(c, steps[0]);
      DiesOut(After(c, steps[0]), steps[1..]);
    }
  }

  lemma LeftFew(c: Pair)
    requires Sound(c)
    ensures Left(c) <= 5
  {
  }

  lemma SoundDelivery(c: Pair, step: Step)
    requires Sound(c) && Possible(c, step) && Delivery(step)
    ensures Sound(After(c, step)) && Left(After(c, step)) < Left(c)
  {
    hide Coherent, Parted, Work, PartedWork;
    NotBoth(c);
    if Coherent(c) {
      DeliverySound(c, step);
    } else {
      PartedStays(c, step);
      NotBoth(After(c, step));
    }
  }

  // ---- what a program can see

  /** An end whose program has asked again for what it is still dropping. */
  predicate Reasked(c: Pair) { c.x == WantNoOp || c.y == WantNoOp }

  lemma ReaskedStays(c: Pair, step: Step)
    requires Coherent(c) && Possible(c, step) && Delivery(step) && !Forgets(c, step)
    ensures Reasked(After(c, step)) <==> Reasked(c)
  {
    hide Work, PartedWork;
    DeliverySound(c, step);
  }

  /** If the programs stop asking, the ends will come to agree if and only if at that moment neither is waiting to be
      rid of an option its program has asked for again. */
  lemma {:induction false} AgreementNeedsPatience(c: Pair, steps: seq<Step>)
    requires Coherent(c) && IsRun(c, steps) && forall i :: 0 <= i < |steps| ==> Delivery(steps[i])
    requires Quiet(End(c, steps))
    ensures Agreed(End(c, steps)) <==> !Reasked(c)
    decreases |steps|
  {
    hide Coherent, Parted, Left;
    if steps == [] {
      QuietAgreed(c);
    } else {
      DeliverySound(c, steps[0]);
      if Forgets(c, steps[0]) {
        AgreementExact(c, steps);
      } else {
        ReaskedStays(c, steps[0]);
        AgreementNeedsPatience(After(c, steps[0]), steps[1..]);
      }
    }
  }

  /** Two fresh ends can come to disagree: one program drops an option and takes it up again at once, and is left
      waiting for an answer to a request that was never sent. */
  lemma Disagreement()
    ensures var steps := [AskX(Enable), ToY(true), ToX(true), AskX(Disable), AskX(Enable), ToY(true), ToX(true)];
            IsRun(START, steps) && End(START, steps) == Pair(WantYes, No, [], [])
  {
    var c3 := Pair(Yes, Yes, [], []);
    var tail := [AskX(Disable), AskX(Enable), ToY(true), ToX(true)];
    var steps := [AskX(Enable), ToY(true), ToX(true)] + tail;
    assert steps[1..][1..][1..] == tail;
    assert After(After(After(START, steps[0]), steps[1..][0]), steps[1..][1..][0]) == c3;
    assert tail[1..][1..][1..][1..] == [];
  }
}
