/** Two telnet engines negotiating all options over two FIFO channels: every option, in each direction, is a pair of the
    Q method (libtelnet.c). */
module TelnetPeers {
  import opened Bytes
  import opened TelnetQ
  import opened TelnetStream

  datatype Message = Message(verb: Verb, opt: Byte)

  /** The options of the two engines, and the verbs in flight from each to the other, oldest first. */
  datatype World = World(a: Options, b: Options, ab: seq<Message>, ba: seq<Message>)

  datatype Move = AskA(m: Message) | AskB(m: Message) | ToA(sup: Support) | ToB(sup: Support)

  predicate CanMove(w: World, move: Move) {
    (move.ToA? ==> w.ba != []) && (move.ToB? ==> w.ab != [])
  }

  function Put(q: Options, opt: Byte, o: Option): Options { if o == Get(q, opt) then q else q[opt := o] }

  /** The verb an engine sends about us after `Asked`, or answers after `Negotiated`. */
  function Said(v: Verb, opt: Byte, r: Reply): seq<Message> {
    if r.Silent? then [] else [Message(v, opt)]
  }

  function Answered(v: Verb, opt: Byte, r: Reply): seq<Message> {
    if r.Silent? then [] else [Message(VerbFor(AboutHim(v), r.sign), opt)]
  }

  function Next(w: World, move: Move): World
    requires CanMove(w, move)
  {
    match move
    case AskA(m) =>
      var (o, r) := Asked(Get(w.a, m.opt), m.verb);
      w.(a := Put(w.a, m.opt, o), ab := w.ab + Said(m.verb, m.opt, r))
    case AskB(m) =>
      var (o, r) := Asked(Get(w.b, m.opt), m.verb);
      w.(b := Put(w.b, m.opt, o), ba := w.ba + Said(m.verb, m.opt, r))
    case ToA(sup) =>
      var m := w.ba[0];
      var (o, r) := Negotiated(Get(w.a, m.opt), m.verb, Supports(sup, m.verb, m.opt));
      w.(a := Put(w.a, m.opt, o), ba := w.ba[1..], ab := w.ab + Answered(m.verb, m.opt, r))
    case ToB(sup) =>
      var m := w.ab[0];
      var (o, r) := Negotiated(Get(w.b, m.opt), m.verb, Supports(sup, m.verb, m.opt));
      w.(b := Put(w.b, m.opt, o), ab := w.ab[1..], ba := w.ba + Answered(m.verb, m.opt, r))
  }

  /** A verb on the wire. */
  function Spelled(m: Message): seq<Byte> { [255, Code(m.verb), m.opt] }

  function AllSpelled(ms: seq<Message>): seq<Byte> {
    if ms == [] then [] else Spelled(ms[0]) + AllSpelled(ms[1..])
  }

  /** The bytes that some events send. */
  function SentBytes(evs: seq<Event>): seq<Byte> {
    if evs == [] then [] else (if evs[0].Send? then evs[0].bytes else []) + SentBytes(evs[1..])
  }

  /** What a move puts on the wire are the bytes that the engine's events send. */
  lemma MovesAreEvents(q: Options, sup: Support, v: Verb, opt: Byte)
    ensures var (o, r) := Negotiated(Get(q, opt), v, Supports(sup, v, opt));
            && Negotiation(q, sup, false, v, opt).0 == Put(q, opt, o)
            && SentBytes(Negotiation(q, sup, false, v, opt).1) == AllSpelled(Answered(v, opt, r))
    ensures var (o, r) := Asked(Get(q, opt), v);
            && Asking(q, false, v, opt).0 == Put(q, opt, o)
            && SentBytes(Asking(q, false, v, opt).1) == AllSpelled(Said(v, opt, r))
  {
    hide SentBytes, AllSpelled;
    var o := Get(q, opt);
    var s := Supports(sup, v, opt);
    var (o1, r1) := Negotiated(o, v, s);
    BytesAppend(Answers(v, r1, opt), Notices(o, v, s, opt));
    SilentBytes(Notices(o, v, s, opt));
    SpelledNone();
    if r1.Reply? {
      SpelledOne(VerbFor(AboutHim(v), r1.sign), opt);
    }
    var (o2, r2) := Asked(o, v);
    if r2.Reply? {
      SpelledOne(v, opt);
    }
  }

  /** What the other side is answered, by the state of what it speaks about: an offer is taken exactly if it is
      supported, an end is confirmed, an agreement that comes too late is taken back, and nothing else is answered. */
  lemma AnswersSent(q: Options, sup: Support, v: Verb, opt: Byte)
    ensures var (q1, evs) := Negotiation(q, sup, false, v, opt);
            var before := if AboutHim(v) then Get(q, opt).him else Get(q, opt).us;
            var after := if AboutHim(v) then Get(q1, opt).him else Get(q1, opt).us;
            var supported := if AboutHim(v) then opt in sup.him else opt in sup.us;
            var (agree, refuse) := if AboutHim(v) then (253, 254) else (251, 252);
            && (before == No ==> (after == Yes <==> SignOf(v) == Enable && supported))
            && SentBytes(evs) ==
                 if before == No && SignOf(v) == Enable then [255, if supported then agree else refuse, opt]
                 else if before == Yes && SignOf(v) == Disable then [255, refuse, opt]
                 else if before == WantYesOp && SignOf(v) == Enable then [255, refuse, opt]
                 else []
  {
    hide SentBytes, AllSpelled;
    MovesAreEvents(q, sup, v, opt);
    var (_, r) := Negotiated(Get(q, opt), v, Supports(sup, v, opt));
    SpelledNone();
    if r.Reply? {
      SpelledOne(VerbFor(AboutHim(v), r.sign), opt);
    }
  }

  /** A request of the program goes out exactly if it leaves a settled state. */
  lemma RequestsSent(q: Options, v: Verb, opt: Byte)
    ensures var (q1, evs) := Asking(q, false, v, opt);
            var before := if AboutHim(v) then Get(q, opt).us else Get(q, opt).him;
            var after := if AboutHim(v) then Get(q1, opt).us else Get(q1, opt).him;
            && SentBytes(evs) ==
                 (if (before == No && after == WantYes) || (before == Yes && after == WantNo) then [255, Code(v), opt]
                  else [])
            && (SignOf(v) == Enable ==> after == Yes || after == WantYes || after == WantNoOp)
            && (SignOf(v) == Disable ==> after == No || after == WantNo || after == WantYesOp)
  {
    hide SentBytes, AllSpelled;
    MovesAreEvents(q, Support({}, {}), v, opt);
    var (_, r) := Asked(Get(q, opt), v);
    SpelledNone();
    if r.Reply? {
      SpelledOne(v, opt);
    }
  }

  lemma SpelledNone()
    ensures SentBytes([]) == [] && AllSpelled([]) == []
  {
  }

  lemma SpelledOne(v: Verb, opt: Byte)
    ensures SentBytes([Send([IAC, VerbByte(v), opt])]) == AllSpelled([Message(v, opt)]) == [255, Code(v), opt]
  {
    assert [Send([IAC, VerbByte(v), opt])][1..] == [] && [Message(v, opt)][1..] == [];
  }

  lemma {:induction false} BytesAppend(x: seq<Event>, y: seq<Event>)
    ensures SentBytes(x + y) == SentBytes(x) + SentBytes(y)
  {
    if x == [] {
      assert x + y == y;
    } else {
      assert (x + y)[1..] == x[1..] + y;
      BytesAppend(x[1..], y);
    }
  }

  lemma {:induction false} SilentBytes(evs: seq<Event>)
    requires forall i :: 0 <= i < |evs| ==> !evs[i].Send?
    ensures SentBytes(evs) == []
  {
    if evs != [] {
      SilentBytes(evs[1..]);
    }
  }

  // ---- one option in one direction

  /** Whether a verb sent by A belongs to the direction in which A (`byA`) or B does the option. */
  predicate FromA(v: Verb, byA: bool) { AboutHim(v) == byA }

  function SignsA(ms: seq<Message>, opt: Byte, byA: bool): seq<Sign> {
    if ms == [] then []
    else (if ms[0].opt == opt && FromA(ms[0].verb, byA) then [SignOf(ms[0].verb)] else []) + SignsA(ms[1..], opt, byA)
  }

  function SignsB(ms: seq<Message>, opt: Byte, byA: bool): seq<Sign> { SignsA(ms, opt, !byA) }

  /** The pair an option makes in the direction in which A does it (`byA`), or B. */
  function PairOf(w: World, opt: Byte, byA: bool): Pair {
    Pair(if byA then Get(w.a, opt).us else Get(w.a, opt).him,
         if byA then Get(w.b, opt).him else Get(w.b, opt).us,
         SignsA(w.ab, opt, byA), SignsB(w.ba, opt, byA))
  }

  /** The option and direction a move is about. */
  function OptOf(w: World, move: Move): Byte
    requires CanMove(w, move)
  {
    match move
    case AskA(m) => m.opt
    case AskB(m) => m.opt
    case ToA(_) => w.ba[0].opt
    case ToB(_) => w.ab[0].opt
  }

  function ByAOf(w: World, move: Move): bool
    requires CanMove(w, move)
  {
    match move
    case AskA(m) => AboutHim(m.verb)
    case AskB(m) => !AboutHim(m.verb)
    case ToA(_) => !AboutHim(w.ba[0].verb)
    case ToB(_) => AboutHim(w.ab[0].verb)
  }

  /** What a move is for its pair. */
  function StepOf(w: World, move: Move): Step
    requires CanMove(w, move)
  {
    match move
    case AskA(m) => AskX(SignOf(m.verb))
    case AskB(m) => AskY(SignOf(m.verb))
    case ToA(sup) => ToX(Supports(sup, w.ba[0].verb, w.ba[0].opt))
    case ToB(sup) => ToY(Supports(sup, w.ab[0].verb, w.ab[0].opt))
  }

  lemma {:induction false} SignsAppend(ms: seq<Message>, ns: seq<Message>, opt: Byte, byA: bool)
    ensures SignsA(ms + ns, opt, byA) == SignsA(ms, opt, byA) + SignsA(ns, opt, byA)
  {
    if ms == [] {
      assert ms + ns == ns;
    } else {
      assert (ms + ns)[1..] == ms[1..] + ns;
      SignsAppend(ms[1..], ns, opt, byA);
    }
  }

  lemma SignsOne(m: Message, opt: Byte, byA: bool)
    ensures SignsA([m], opt, byA) == if m.opt == opt && FromA(m.verb, byA) then [SignOf(m.verb)] else []
  {
    assert SignsA([m][1..], opt, byA) == [];
  }

  /** A reply travels back in the direction the verb came in. */
  lemma AnswerSigns(v: Verb, o: Byte, r: Reply, opt: Byte, byA: bool)
    ensures SignsA(Answered(v, o, r), opt, byA) == if o == opt && AboutHim(v) != byA then Sent(r) else []
  {
    if r.Reply? {
      SignsOne(Message(VerbFor(AboutHim(v), r.sign), o), opt, byA);
    }
  }

  lemma SaidSigns(v: Verb, o: Byte, r: Reply, opt: Byte, byA: bool)
    requires r.Reply? ==> r.sign == SignOf(v)
    ensures SignsA(Said(v, o, r), opt, byA) == if o == opt && AboutHim(v) == byA then Sent(r) else []
  {
    if r.Reply? {
      SignsOne(Message(v, o), opt, byA);
    }
  }

  lemma AskedSign(o: Option, v: Verb)
    ensures var (_, r) := Asked(o, v); r.Reply? ==> r.sign == SignOf(v)
  {
  }

  /** A move is a step of one pair, and leaves every other pair alone. */
  ghost predicate MoveMatches(w: World, move: Move, opt: Byte, byA: bool)
    requires CanMove(w, move)
  {
    var mine := opt == OptOf(w, move) && byA == ByAOf(w, move);
    && (mine ==> Possible(PairOf(w, opt, byA), StepOf(w, move)))
    && PairOf(Next(w, move), opt, byA) == if mine then After(PairOf(w, opt, byA), StepOf(w, move))
                                          else PairOf(w, opt, byA)
  }

  lemma AskAMatches(w: World, m: Message, opt: Byte, byA: bool)
    requires CanMove(w, AskA(m))
    ensures MoveMatches(w, AskA(m), opt, byA)
  {
    hide SignsA, Receive, Ask;
    var (o, r) := Asked(Get(w.a, m.opt), m.verb);
    AskedSign(Get(w.a, m.opt), m.verb);
    SignsAppend(w.ab, Said(m.verb, m.opt, r), opt, byA);
    SaidSigns(m.verb, m.opt, r, opt, byA);
  }

  lemma AskBMatches(w: World, m: Message, opt: Byte, byA: bool)
    requires CanMove(w, AskB(m))
    ensures MoveMatches(w, AskB(m), opt, byA)
  {
    hide SignsA, Receive, Ask;
    var (o, r) := Asked(Get(w.b, m.opt), m.verb);
    AskedSign(Get(w.b, m.opt), m.verb);
    SignsAppend(w.ba, Said(m.verb, m.opt, r), opt, !byA);
    SaidSigns(m.verb, m.opt, r, opt, !byA);
  }

  lemma GetPut(q: Options, opt: Byte, o: Option, other: Byte)
    ensures Get(Put(q, opt, o), other) == if other == opt then o else Get(q, other)
  {
  }

  /** A verb touches one side of an option. */
  lemma NegotiatedSides(o: Option, v: Verb, supported: bool)
    ensures var (o1, r) := Negotiated(o, v, supported);
            if AboutHim(v) then o1.us == o.us && (o1.him, r) == Receive(o.him, SignOf(v), supported)
            else o1.him == o.him && (o1.us, r) == Receive(o.us, SignOf(v), supported)
  {
    hide Receive, SignOf;
  }

  lemma ToAMatches(w: World, sup: Support, opt: Byte, byA: bool)
    requires CanMove(w, ToA(sup))
    ensures MoveMatches(w, ToA(sup), opt, byA)
  {
    hide SignsA, Receive, Ask, VerbFor, Supports, Answered, Get, Put, Negotiated, SignOf;
    var m := w.ba[0];
    NegotiatedSides(Get(w.a, m.opt), m.verb, Supports(sup, m.verb, m.opt));
    GetPut(w.a, m.opt, Negotiated(Get(w.a, m.opt), m.verb, Supports(sup, m.verb, m.opt)).0, opt);
    var (o, r) := Negotiated(Get(w.a, m.opt), m.verb, Supports(sup, m.verb, m.opt));
    FirstSign(w.ba, opt, !byA);
    SignsAppend(w.ab, Answered(m.verb, m.opt, r), opt, byA);
    AnswerSigns(m.verb, m.opt, r, opt, byA);
  }

  lemma ToBMatches(w: World, sup: Support, opt: Byte, byA: bool)
    requires CanMove(w, ToB(sup))
    ensures MoveMatches(w, ToB(sup), opt, byA)
  {
    hide SignsA, Receive, Ask, VerbFor, Supports, Answered, Get, Put, Negotiated, SignOf;
    var m := w.ab[0];
    NegotiatedSides(Get(w.b, m.opt), m.verb, Supports(sup, m.verb, m.opt));
    GetPut(w.b, m.opt, Negotiated(Get(w.b, m.opt), m.verb, Supports(sup, m.verb, m.opt)).0, opt);
    var (o, r) := Negotiated(Get(w.b, m.opt), m.verb, Supports(sup, m.verb, m.opt));
    FirstSign(w.ab, opt, byA);
    SignsAppend(w.ba, Answered(m.verb, m.opt, r), opt, !byA);
    AnswerSigns(m.verb, m.opt, r, opt, !byA);
  }

  lemma MoveIsStep(w: World, move: Move, opt: Byte, byA: bool)
    requires CanMove(w, move)
    ensures MoveMatches(w, move, opt, byA)
  {
    hide MoveMatches;
    match move
    case AskA(m) => AskAMatches(w, m, opt, byA);
    case AskB(m) => AskBMatches(w, m, opt, byA);
    case ToA(sup) => ToAMatches(w, sup, opt, byA);
    case ToB(sup) => ToBMatches(w, sup, opt, byA);
  }

  lemma FirstSign(ms: seq<Message>, opt: Byte, byA: bool)
    requires ms != []
    ensures SignsA(ms, opt, byA)
            == (if ms[0].opt == opt && FromA(ms[0].verb, byA) then [SignOf(ms[0].verb)] else [])
                + SignsA(ms[1..], opt, byA)
  {
  }

  // ---- all options

  ghost predicate CoherentAt(w: World, opt: Byte, byA: bool) { Coherent(PairOf(w, opt, byA)) }

  ghost predicate PartedAt(w: World, opt: Byte, byA: bool) { Parted(PairOf(w, opt, byA)) }

  ghost predicate Good(w: World) { forall opt: Byte, byA: bool :: CoherentAt(w, opt, byA) }

  predicate IsDelivery(move: Move) { move.ToA? || move.ToB? }

  /** The engine is told that an option is off which its program has asked for again meanwhile. */
  predicate Overlooks(o: Option, v: Verb) { (v == Wont && o.him == WantNoOp) || (v == Dont && o.us == WantNoOp) }

  /** The move makes an engine count itself as waiting for an option that it does not ask for. */
  predicate MoveForgets(w: World, move: Move)
    requires CanMove(w, move)
  {
    (move.ToA? && Overlooks(Get(w.a, w.ba[0].opt), w.ba[0].verb))
        || (move.ToB? && Overlooks(Get(w.b, w.ab[0].opt), w.ab[0].verb))
  }

  predicate DroppingHim(o: Option) { o.him == WantNo || o.him == WantNoOp }

  predicate DroppingUs(o: Option) { o.us == WantNo || o.us == WantNoOp }

  predicate Error(o: Option, v: Verb) { (v == Will && DroppingHim(o)) || (v == Do && DroppingUs(o)) }

  /** The move delivers a verb that the engine takes as a protocol error ("answered by"). */
  predicate ProtocolError(w: World, move: Move)
    requires CanMove(w, move)
  {
    (move.ToA? && Error(Get(w.a, w.ba[0].opt), w.ba[0].verb))
        || (move.ToB? && Error(Get(w.b, w.ab[0].opt), w.ab[0].verb))
  }

  /** What a move is for the programs is what its step is for its pair. */
  lemma MoveMeaning(w: World, move: Move)
    requires CanMove(w, move)
    ensures var c := PairOf(w, OptOf(w, move), ByAOf(w, move));
            && Possible(c, StepOf(w, move))
            && (Delivery(StepOf(w, move)) <==> IsDelivery(move))
            && (MoveForgets(w, move) <==> Forgets(c, StepOf(w, move)))
            && (ProtocolError(w, move) ==> Refusal(c, StepOf(w, move)) && IsDelivery(move))
  {
    hide SignsA;
    var opt, byA := OptOf(w, move), ByAOf(w, move);
    if move.ToA? {
      FirstSign(w.ba, opt, !byA);
    } else if move.ToB? {
      FirstSign(w.ab, opt, byA);
    }
  }

  /** A move keeps a coherent pair coherent, unless it is the one that forgets. */
  lemma MoveAt(w: World, move: Move, opt: Byte, byA: bool)
    requires CoherentAt(w, opt, byA) && CanMove(w, move)
    ensures if opt == OptOf(w, move) && byA == ByAOf(w, move)
              && MoveForgets(w, move) then PartedAt(Next(w, move), opt, byA) else CoherentAt(Next(w, move), opt, byA)
    ensures opt == OptOf(w, move) && byA == ByAOf(w, move) ==> !ProtocolError(w, move)
  {
    hide Coherent, Parted, PairOf, Left, After, StepOf, MoveForgets, ProtocolError, Forgets, Refusal;
    MoveIsStep(w, move, opt, byA);
    MoveMeaning(w, move);
    if opt == OptOf(w, move) && byA == ByAOf(w, move) {
      var c, step := PairOf(w, opt, byA), StepOf(w, move);
      if IsDelivery(move) {
        DeliverySound(c, step);
      } else {
        AskCoherent(c, step);
        AskForgetsNothing(c, step);
      }
    }
  }

  lemma AskForgetsNothing(c: Pair, step: Step)
    requires Possible(c, step) && !Delivery(step)
    ensures !Forgets(c, step)
  {
  }

  /** Nothing mends a parted pair. */
  lemma PartedMove(w: World, move: Move, opt: Byte, byA: bool)
    requires PartedAt(w, opt, byA) && CanMove(w, move)
    ensures PartedAt(Next(w, move), opt, byA)
  {
    hide Parted, PairOf, After, StepOf, PartedWork;
    MoveIsStep(w, move, opt, byA);
    if opt == OptOf(w, move) && byA == ByAOf(w, move) {
      PartedStays(PairOf(w, opt, byA), StepOf(w, move));
    }
  }

  // ---- whole runs

  predicate IsWorldRun(w: World, moves: seq<Move>)
    decreases |moves|
  {
    moves == [] || (CanMove(w, moves[0]) && IsWorldRun(Next(w, moves[0]), moves[1..]))
  }

  function Final(w: World, moves: seq<Move>): World
    requires IsWorldRun(w, moves)
    decreases |moves|
  {
    if moves == [] then w else Final(Next(w, moves[0]), moves[1..])
  }

  /** Somewhere in the run an engine forgets to ask for an option, in one direction. */
  predicate ForgottenAt(w: World, moves: seq<Move>, opt: Byte, byA: bool)
    requires IsWorldRun(w, moves)
    decreases |moves|
  {
    moves != []
    && ((opt == OptOf(w, moves[0]) && byA == ByAOf(w, moves[0]) && MoveForgets(w, moves[0]))
        || ForgottenAt(Next(w, moves[0]), moves[1..], opt, byA))
  }

  /** No engine ever forgets. */
  predicate Remembered(w: World, moves: seq<Move>)
    requires IsWorldRun(w, moves)
    decreases |moves|
  {
    moves == [] || (!MoveForgets(w, moves[0]) && Remembered(Next(w, moves[0]), moves[1..]))
  }

  predicate ErrorFree(w: World, moves: seq<Move>)
    requires IsWorldRun(w, moves)
    decreases |moves|
  {
    moves == [] || (!ProtocolError(w, moves[0]) && ErrorFree(Next(w, moves[0]), moves[1..]))
  }

  const FRESH := World(map[], map[], [], [])

  lemma FreshGood()
    ensures Good(FRESH)
  {
    forall opt: Byte, byA: bool ensures CoherentAt(FRESH, opt, byA) {
      assert PairOf(FRESH, opt, byA) == START;
    }
  }

  lemma {:induction false} PartedRunAt(w: World, moves: seq<Move>, opt: Byte, byA: bool)
    requires PartedAt(w, opt, byA) && IsWorldRun(w, moves)
    ensures PartedAt(Final(w, moves), opt, byA)
    decreases |moves|
  {
    hide PartedAt;
    if moves != [] {
      PartedMove(w, moves[0], opt, byA);
      PartedRunAt(Next(w, moves[0]), moves[1..], opt, byA);
    }
  }

  lemma {:induction false} RunAt(w: World, moves: seq<Move>, opt: Byte, byA: bool)
    requires CoherentAt(w, opt, byA) && IsWorldRun(w, moves)
    ensures if ForgottenAt(w, moves, opt, byA) then PartedAt(Final(w, moves), opt, byA)
            else CoherentAt(Final(w, moves), opt, byA)
    decreases |moves|
  {
    hide CoherentAt, PartedAt, MoveForgets, OptOf, ByAOf, ProtocolError;
    if moves != [] {
      MoveAt(w, moves[0], opt, byA);
      if opt == OptOf(w, moves[0]) && byA == ByAOf(w, moves[0]) && MoveForgets(w, moves[0]) {
        PartedRunAt(Next(w, moves[0]), moves[1..], opt, byA);
      } else {
        RunAt(Next(w, moves[0]), moves[1..], opt, byA);
      }
    }
  }

  lemma {:induction false} RememberedGood(w: World, moves: seq<Move>)
    requires Good(w) && IsWorldRun(w, moves) && Remembered(w, moves)
    ensures ErrorFree(w, moves)
    decreases |moves|
  {
    hide CoherentAt, MoveForgets, OptOf, ByAOf, ProtocolError;
    if moves != [] {
      assert CoherentAt(w, OptOf(w, moves[0]), ByAOf(w, moves[0]));
      MoveAt(w, moves[0], OptOf(w, moves[0]), ByAOf(w, moves[0]));
      forall opt: Byte, byA: bool ensures CoherentAt(Next(w, moves[0]), opt, byA) {
        assert CoherentAt(w, opt, byA);
        MoveAt(w, moves[0], opt, byA);
      }
      RememberedGood(Next(w, moves[0]), moves[1..]);
    }
  }

  /** Both engines hold an option the same way, enabled or disabled, in one direction. */
  predicate SettledAt(w: World, opt: Byte, byA: bool) {
    var (mine, other) := if byA then (Get(w.a, opt).us, Get(w.b, opt).him) else (Get(w.a, opt).him, Get(w.b, opt).us);
    mine == other && (mine == Yes || mine == No)
  }

  predicate Silence(w: World) { w.ab == [] && w.ba == [] }

  lemma QuietSettled(w: World, opt: Byte, byA: bool)
    requires Silence(w) && (CoherentAt(w, opt, byA) || PartedAt(w, opt, byA))
    ensures SettledAt(w, opt, byA) <==> CoherentAt(w, opt, byA)
    ensures !(CoherentAt(w, opt, byA) && PartedAt(w, opt, byA))
  {
    hide Coherent, Parted;
    QuietAgreed(PairOf(w, opt, byA));
    NotBoth(PairOf(w, opt, byA));
  }

  /** Two fresh engines, whatever their programs ask for and support and however the channels delay: whenever nothing is
      in flight, they hold an option the same way in a direction if and only if neither has forgotten to ask for it
      there; and as long as no engine forgets, no verb is taken as a protocol error. */
  lemma EnginesAgree(moves: seq<Move>)
    requires IsWorldRun(FRESH, moves)
    ensures Remembered(FRESH, moves) ==> ErrorFree(FRESH, moves)
    ensures Silence(Final(FRESH, moves)) ==>
              forall opt: Byte, byA: bool :: SettledAt(Final(FRESH, moves), opt, byA) <==>
                    !ForgottenAt(FRESH, moves, opt, byA)
  {
    hide IsWorldRun, Remembered, ErrorFree, ForgottenAt, CoherentAt, PartedAt, SettledAt, Silence;
    FreshGood();
    if Remembered(FRESH, moves) {
      RememberedGood(FRESH, moves);
    }
    var w := Final(FRESH, moves);
    if Silence(w) {
      forall opt: Byte, byA: bool ensures SettledAt(w, opt, byA) <==> !ForgottenAt(FRESH, moves, opt, byA) {
        assert CoherentAt(FRESH, opt, byA);
        RunAt(FRESH, moves, opt, byA);
        QuietSettled(w, opt, byA);
      }
    }
  }

  // ---- what the programs can see

  /** An engine is still dropping an option that its program has asked for again. */
  predicate ReaskedAt(w: World, opt: Byte, byA: bool) {
    if byA then Get(w.a, opt).us == WantNoOp || Get(w.b, opt).him == WantNoOp
    else Get(w.a, opt).him == WantNoOp || Get(w.b, opt).us == WantNoOp
  }

  lemma ReaskedMove(w: World, move: Move, opt: Byte, byA: bool)
    requires CoherentAt(w, opt, byA) && CanMove(w, move) && IsDelivery(move)
    requires !(opt == OptOf(w, move) && byA == ByAOf(w, move) && MoveForgets(w, move))
    ensures ReaskedAt(Next(w, move), opt, byA) <==> ReaskedAt(w, opt, byA)
  {
    hide Coherent, After, StepOf, MoveForgets, ProtocolError, Forgets, SignsA, Next, CanMove;
    MoveIsStep(w, move, opt, byA);
    MoveMeaning(w, move);
    if opt == OptOf(w, move) && byA == ByAOf(w, move) {
      ReaskedStays(PairOf(w, opt, byA), StepOf(w, move));
    }
  }

  /** Once the programs stop asking, an option will be held the same way if and only if at that moment no engine is
      dropping it while its program wants it again. */
  lemma {:induction false} StoppingAgrees(w: World, moves: seq<Move>, opt: Byte, byA: bool)
    requires CoherentAt(w, opt, byA) && IsWorldRun(w, moves) && forall i :: 0 <= i < |moves| ==> IsDelivery(moves[i])
    requires Silence(Final(w, moves))
    ensures SettledAt(Final(w, moves), opt, byA) <==> !ReaskedAt(w, opt, byA)
    decreases |moves|
  {
    hide CoherentAt, PartedAt, MoveForgets, ReaskedAt, SettledAt, Silence, OptOf, ByAOf, ProtocolError;
    if moves == [] {
      QuietSettled(w, opt, byA);
      QuietRemembers(w, opt, byA);
    } else {
      MoveAt(w, moves[0], opt, byA);
      if opt == OptOf(w, moves[0]) && byA == ByAOf(w, moves[0]) && MoveForgets(w, moves[0]) {
        PartedRunAt(Next(w, moves[0]), moves[1..], opt, byA);
        QuietSettled(Final(w, moves), opt, byA);
        ForgetterReasked(w, moves[0]);
      } else {
        ReaskedMove(w, moves[0], opt, byA);
        StoppingAgrees(Next(w, moves[0]), moves[1..], opt, byA);
      }
    }
  }

  lemma QuietRemembers(w: World, opt: Byte, byA: bool)
    requires Silence(w) && CoherentAt(w, opt, byA)
    ensures !ReaskedAt(w, opt, byA)
  {
  }

  lemma ForgetterReasked(w: World, move: Move)
    requires CanMove(w, move) && MoveForgets(w, move)
    ensures ReaskedAt(w, OptOf(w, move), ByAOf(w, move))
  {
  }

  predicate Retakes(o: Option, v: Verb) { (v == Will && o.us == WantNo) || (v == Do && o.him == WantNo) }

  /** The program behind a move asks for an option it is still waiting to be rid of. */
  predicate Impatient(w: World, move: Move) {
    (move.AskA? && Retakes(Get(w.a, move.m.opt), move.m.verb))
        || (move.AskB? && Retakes(Get(w.b, move.m.opt), move.m.verb))
  }

  predicate PatientWorld(w: World, moves: seq<Move>)
    requires IsWorldRun(w, moves)
    decreases |moves|
  {
    moves == [] || (!Impatient(w, moves[0]) && PatientWorld(Next(w, moves[0]), moves[1..]))
  }

  lemma PatientMove(w: World, move: Move, opt: Byte, byA: bool)
    requires CanMove(w, move) && !Impatient(w, move) && !ReaskedAt(w, opt, byA)
    ensures !ReaskedAt(Next(w, move), opt, byA)
  {
    hide SignsA, Supports, Said, Answered;
  }

  /** Programs that never ask again for an option whose disabling is pending leave no engine with anything to forget. */
  lemma {:induction false} PatienceSuffices(w: World, moves: seq<Move>)
    requires IsWorldRun(w, moves) && PatientWorld(w, moves) && forall opt: Byte, byA: bool :: !ReaskedAt(w, opt, byA)
    ensures Remembered(w, moves)
    decreases |moves|
  {
    hide ReaskedAt, Impatient, MoveForgets, OptOf, ByAOf;
    if moves != [] {
      if MoveForgets(w, moves[0]) {
        ForgetterReasked(w, moves[0]);
      }
      forall opt: Byte, byA: bool ensures !ReaskedAt(Next(w, moves[0]), opt, byA) {
        PatientMove(w, moves[0], opt, byA);
      }
      PatienceSuffices(Next(w, moves[0]), moves[1..]);
    }
  }

  lemma {:induction false} RememberedEverywhere(w: World, moves: seq<Move>, opt: Byte, byA: bool)
    requires IsWorldRun(w, moves) && Remembered(w, moves)
    ensures !ForgottenAt(w, moves, opt, byA)
    decreases |moves|
  {
    hide MoveForgets, OptOf, ByAOf;
    if moves != [] {
      RememberedEverywhere(Next(w, moves[0]), moves[1..], opt, byA);
    }
  }

  /** For patient programs the negotiation does what it is for: two fresh engines take no verb as a protocol error, and
      whenever nothing is in flight they hold every option the same way in both directions. */
  lemma PatientAgree(moves: seq<Move>)
    requires IsWorldRun(FRESH, moves) && PatientWorld(FRESH, moves)
    ensures ErrorFree(FRESH, moves)
    ensures Silence(Final(FRESH, moves)) ==> forall opt: Byte, byA: bool :: SettledAt(Final(FRESH, moves), opt, byA)
  {
    hide IsWorldRun, PatientWorld, Remembered, ErrorFree, ForgottenAt, SettledAt, Silence;
    NoneReasked();
    PatienceSuffices(FRESH, moves);
    EnginesAgree(moves);
    forall opt: Byte, byA: bool ensures !ForgottenAt(FRESH, moves, opt, byA) {
      RememberedEverywhere(FRESH, moves, opt, byA);
    }
  }

  lemma NoneReasked()
    ensures forall opt: Byte, byA: bool :: !ReaskedAt(FRESH, opt, byA)
  {
  }

  function Both(opt: Byte, us: Q, him: Q, ab: seq<Message>, ba: seq<Message>): World {
    World(map[opt := Option(us, No)], map[opt := Option(No, him)], ab, ba)
  }

  lemma TakesUp(opt: Byte, sup: Support)
    requires sup == Support({opt}, {opt})
    ensures var w1 := World(map[opt := Option(WantYes, No)], map[], [Message(Will, opt)], []);
            && Next(FRESH, AskA(Message(Will, opt))) == w1
            && Next(w1, ToB(sup)) == Both(opt, WantYes, Yes, [], [Message(Do, opt)])
    ensures Next(Both(opt, WantYes, Yes, [], [Message(Do, opt)]), ToA(sup)) == Both(opt, Yes, Yes, [], [])
  {
  }

  lemma DropsAndRetakes(opt: Byte, sup: Support)
    ensures Next(Both(opt, Yes, Yes, [], []), AskA(Message(Wont, opt)))
              == Both(opt, WantNo, Yes, [Message(Wont, opt)], [])
    ensures Next(Both(opt, WantNo, Yes, [Message(Wont, opt)], []), AskA(Message(Will, opt)))
              == Both(opt, WantNoOp, Yes, [Message(Wont, opt)], [])
    ensures Next(Both(opt, WantNoOp, Yes, [Message(Wont, opt)], []), ToB(sup))
              == Both(opt, WantNoOp, No, [], [Message(Dont, opt)])
    ensures Next(Both(opt, WantNoOp, No, [], [Message(Dont, opt)]), ToA(sup)) == Both(opt, WantYes, No, [], [])
  {
  }

  /** And impatience does part two fresh engines: A takes up an option, drops it and takes it up again at once, and is
      left waiting for B, which was never asked. */
  lemma EnginesDisagree(opt: Byte)
    ensures var sup := Support({opt}, {opt});
            var moves := [AskA(Message(Will, opt)), ToB(sup), ToA(sup), AskA(Message(Wont, opt)),
                AskA(Message(Will, opt)), ToB(sup), ToA(sup)];
            && IsWorldRun(FRESH, moves)
            && Final(FRESH, moves) == Both(opt, WantYes, No, [], [])
  {
    var sup := Support({opt}, {opt});
    var will, wont := Message(Will, opt), Message(Wont, opt);
    TakesUp(opt, sup);
    var w1 := World(map[opt := Option(WantYes, No)], map[], [will], []);
    var w2, w3 := Both(opt, WantYes, Yes, [], [Message(Do, opt)]), Both(opt, Yes, Yes, [], []);
    assert w2.ba != [];
    hide Next, Both;
    var drop := [AskA(wont), AskA(will), ToB(sup), ToA(sup)];
    DropRun(opt, sup);
    Then(w2, ToA(sup), w3, drop);
    Then(w1, ToB(sup), w2, [ToA(sup)] + drop);
    Then(FRESH, AskA(will), w1, [ToB(sup)] + ([ToA(sup)] + drop));
    assert [AskA(will)] + ([ToB(sup)] + ([ToA(sup)] + drop))
             == [AskA(will), ToB(sup), ToA(sup), AskA(wont), AskA(will), ToB(sup), ToA(sup)];
  }

  lemma DropRun(opt: Byte, sup: Support)
    ensures var w := Both(opt, Yes, Yes, [], []);
            var drop := [AskA(Message(Wont, opt)), AskA(Message(Will, opt)), ToB(sup), ToA(sup)];
            IsWorldRun(w, drop) && Final(w, drop) == Both(opt, WantYes, No, [], [])
  {
    hide Next;
    var will, wont := Message(Will, opt), Message(Wont, opt);
    DropsAndRetakes(opt, sup);
    var w4, w5 := Both(opt, WantNo, Yes, [wont], []), Both(opt, WantNoOp, Yes, [wont], []);
    var w6, w7 := Both(opt, WantNoOp, No, [], [Message(Dont, opt)]), Both(opt, WantYes, No, [], []);
    Then(w6, ToA(sup), w7, []);
    Then(w5, ToB(sup), w6, [ToA(sup)]);
    Then(w4, AskA(will), w5, [ToB(sup), ToA(sup)]);
    Then(Both(opt, Yes, Yes, [], []), AskA(wont), w4, [AskA(will), ToB(sup), ToA(sup)]);
  }

  lemma Then(w: World, move: Move, w': World, rest: seq<Move>)
    requires CanMove(w, move) && Next(w, move) == w' && IsWorldRun(w', rest)
    ensures IsWorldRun(w, [move] + rest) && Final(w, [move] + rest) == Final(w', rest)
  {
    hide Next;
    assert ([move] + rest)[1..] == rest;
  }

  // ---- negotiation dies out

  ghost predicate SoundAt(w: World, opt: Byte, byA: bool) { Sound(PairOf(w, opt, byA)) }

  ghost predicate WorldSound(w: World) { forall opt: Byte, byA: bool :: SoundAt(w, opt, byA) }

  /** Every world that two fresh engines can come to is sound. */
  lemma RunsAreSound(moves: seq<Move>)
    requires IsWorldRun(FRESH, moves)
    ensures WorldSound(Final(FRESH, moves))
  {
    hide IsWorldRun, Final, Coherent, Parted, ForgottenAt;
    FreshGood();
    forall opt: Byte, byA: bool ensures SoundAt(Final(FRESH, moves), opt, byA) {
      assert CoherentAt(FRESH, opt, byA);
      RunAt(FRESH, moves, opt, byA);
    }
  }

  ghost function WorkAt(w: World, opt: Byte): nat { Left(PairOf(w, opt, true)) + Left(PairOf(w, opt, false)) }

  /** The deliveries that are left for the options below `n`. */
  ghost function TotalWork(w: World, n: nat): nat
    requires n <= 256
  {
    if n == 0 then 0 else TotalWork(w, n - 1) + WorkAt(w, n - 1)
  }

  lemma WorkLess(w: World, move: Move, opt: Byte)
    requires WorldSound(w) && CanMove(w, move) && IsDelivery(move)
    ensures if opt == OptOf(w, move) then WorkAt(Next(w, move), opt) < WorkAt(w, opt)
            else WorkAt(Next(w, move), opt) == WorkAt(w, opt)
    ensures SoundAt(Next(w, move), opt, true) && SoundAt(Next(w, move), opt, false)
  {
    hide Sound, PairOf, Left, After, StepOf, MoveForgets, ProtocolError, Forgets, Refusal;
    MoveIsStep(w, move, opt, true);
    MoveIsStep(w, move, opt, false);
    MoveMeaning(w, move);
    assert SoundAt(w, opt, true) && SoundAt(w, opt, false);
    if opt == OptOf(w, move) {
      SoundDelivery(PairOf(w, opt, ByAOf(w, move)), StepOf(w, move));
    }
  }

  lemma {:induction false} TotalLess(w: World, move: Move, n: nat)
    requires WorldSound(w) && CanMove(w, move) && IsDelivery(move) && n <= 256
    ensures if OptOf(w, move) < n then TotalWork(Next(w, move), n) < TotalWork(w, n)
            else TotalWork(Next(w, move), n) == TotalWork(w, n)
  {
    hide WorldSound, WorkAt, CanMove, OptOf;
    if n > 0 {
      TotalLess(w, move, n - 1);
      WorkLess(w, move, n - 1);
    }
  }

  lemma SoundMove(w: World, move: Move)
    requires WorldSound(w) && CanMove(w, move) && IsDelivery(move)
    ensures WorldSound(Next(w, move))
  {
    hide SoundAt, WorkAt, OptOf, CanMove;
    forall opt: Byte, byA: bool ensures SoundAt(Next(w, move), opt, byA) {
      WorkLess(w, move, opt);
    }
  }

  /** Once both programs stop asking, only so many deliveries are left, whether or not an engine has forgotten. */
  lemma {:induction false} NegotiationDiesOut(w: World, moves: seq<Move>)
    requires WorldSound(w) && IsWorldRun(w, moves) && forall i :: 0 <= i < |moves| ==> IsDelivery(moves[i])
    ensures |moves| <= TotalWork(w, 256)
    decreases |moves|
  {
    hide WorldSound, TotalWork;
    if moves != [] {
      TotalLess(w, moves[0], 256);
      SoundMove(w, moves[0]);
      NegotiationDiesOut(Next(w, moves[0]), moves[1..]);
    }
  }

  /** At most ten verbs for every option. */
  lemma {:induction false} WorkFew(w: World, n: nat)
    requires WorldSound(w) && n <= 256
    ensures TotalWork(w, n) <= 10 * n
  {
    hide Sound, Left;
    if n > 0 {
      WorkFew(w, n - 1);
      assert SoundAt(w, n - 1, true) && SoundAt(w, n - 1, false);
      LeftFew(PairOf(w, n - 1, true));
      LeftFew(PairOf(w, n - 1, false));
    }
  }
}
