/** The telnet protocol engine as a fold over bytes: states, events, and what sending and receiving mean
    (libtelnet.c). */
module TelnetStream {
  import opened Bytes
  import opened TelnetQ

  const IAC: Byte := 255
  const DONT: Byte := 254
  const DO: Byte := 253
  const WONT: Byte := 252
  const WILL: Byte := 251
  const SB: Byte := 250
  const SE: Byte := 240

  const LIMIT := 16384

  datatype State = DataState | IacState | WillState | WontState | DoState | DontState | SbState | SbData | SbDataIac

  datatype Fault = Protocol | Overflow

  datatype Event =
    | Data(bytes: seq<Byte>)
    | Send(bytes: seq<Byte>)
    | Command(cmd: Byte)
    | OnWill(opt: Byte)
    | OnWont(opt: Byte)
    | OnDo(opt: Byte)
    | OnDont(opt: Byte)
    | Subnegotiation(opt: Byte, bytes: seq<Byte>)
    | Warning(fault: Fault)

  /** Both directions of an option: what we do, and what the other side does. */
  datatype Option = Option(us: Q, him: Q)

  type Options = map<Byte, Option>

  function Get(q: Options, opt: Byte): Option { if opt in q then q[opt] else Option(No, No) }

  /** What the program supports: doing an option itself, and having the other side do it. */
  datatype Support = Support(us: set<Byte>, him: set<Byte>)

  // ---- negotiation

  datatype Verb = Will | Wont | Do | Dont

  function VerbByte(v: Verb): Byte {
    match v
    case Will => WILL
    case Wont => WONT
    case Do => DO
    case Dont => DONT
  }

  /** WILL and WONT are about the other side, DO and DONT about us. */
  predicate AboutHim(v: Verb) { v == Will || v == Wont }

  function SignOf(v: Verb): Sign { if v == Will || v == Do then Enable else Disable }

  /** The verb for a sign that speaks about us or about him. */
  function VerbFor(him: bool, sign: Sign): Verb {
    if him then (if sign == Enable then Do else Dont) else (if sign == Enable then Will else Wont)
  }

  function Supports(sup: Support, v: Verb, opt: Byte): bool {
    if AboutHim(v) then opt in sup.him else opt in sup.us
  }

  /** The option after a verb from the other side, and the answer. */
  function Negotiated(o: Option, v: Verb, supported: bool): (Option, Reply) {
    if AboutHim(v) then
      var (him, r) := Receive(o.him, SignOf(v), supported);
      (o.(him := him), r)
    else
      var (us, r) := Receive(o.us, SignOf(v), supported);
      (o.(us := us), r)
  }

  /** What the program is told. */
  function Notices(o: Option, v: Verb, supported: bool, opt: Byte): seq<Event> {
    match v
    case Will =>
      (match o.him
       case No => if supported then [OnWill(opt)] else []
       case WantNo => [OnWont(opt), Warning(Protocol)]
       case WantNoOp => [OnWill(opt), Warning(Protocol)]
       case WantYes => [OnWill(opt)]
       case WantYesOp => [OnWill(opt)]
       case Yes => [])
    case Wont =>
      (match o.him
       case Yes => [OnWont(opt)]
       case WantNo => [OnWont(opt)]
       case WantNoOp => [OnDo(opt)]
       case No => []
       case WantYes => []
       case WantYesOp => [])
    case Do =>
      (match o.us
       case No => if supported then [OnDo(opt)] else []
       case WantNo => [OnDont(opt), Warning(Protocol)]
       case WantNoOp => [OnDo(opt), Warning(Protocol)]
       case WantYes => [OnDo(opt)]
       case WantYesOp => [OnDo(opt)]
       case Yes => [])
    case Dont =>
      (match o.us
       case Yes => [OnDont(opt)]
       case WantNo => [OnWont(opt)]
       case WantNoOp => [OnWill(opt)]
       case No => []
       case WantYes => []
       case WantYesOp => [])
  }

  function Answers(v: Verb, r: Reply, opt: Byte): seq<Event> {
    if r.Silent? then [] else [Send([IAC, VerbByte(VerbFor(AboutHim(v), r.sign)), opt])]
  }

  /** A proxy passes negotiation through; otherwise the answer goes out before the program is told. */
  function Negotiation(q: Options, sup: Support, proxy: bool, v: Verb, opt: Byte): (Options, seq<Event>) {
    if proxy then
      (q, [match v case Will => OnWill(opt) case Wont => OnWont(opt) case Do => OnDo(opt) case Dont => OnDont(opt)])
    else
      var o := Get(q, opt);
      var s := Supports(sup, v, opt);
      var (o', r) := Negotiated(o, v, s);
      (if o' == o then q else q[opt := o'], Answers(v, r, opt) + Notices(o, v, s, opt))
  }

  // ---- the subnegotiation buffer

  /** The buffer sizes grow in steps; 0 stands for no step left. */
  function NextSize(size: nat): nat {
    if size == 0 then 512 else if size == 512 then 2048 else if size == 2048 then 8192 else if size == 8192 then LIMIT
    else 0
  }

  predicate BufferSize(size: nat) { size == 0 || size == 512 || size == 2048 || size == 8192 || size == LIMIT }

  // ---- one byte

  datatype Engine = Engine(state: State, opt: Byte, buf: seq<Byte>, size: nat, q: Options)

  /** An engine that nothing has reached yet. */
  const UP := Engine(DataState, 0, [], 0, map[])

  predicate Sane(t: Engine) { BufferSize(t.size) && |t.buf| <= t.size }

  /** Buffers a byte, growing the buffer if there is a larger size. */
  function Buffered(t: Engine, b: Byte): (Engine, bool) {
    if |t.buf| < t.size then (t.(buf := t.buf + [b]), true)
    else if NextSize(t.size) == 0 then (t, false)
    else (t.(buf := t.buf + [b], size := NextSize(t.size)), true)
  }

  /** A buffered byte goes on in `next`; one too many is dropped, and what was buffered with it. */
  function Push(t: Engine, b: Byte, next: State): (Engine, seq<Event>) {
    var (t', ok) := Buffered(t, b);
    if ok then (t'.(state := next), []) else (t'.(state := DataState), [Warning(Overflow)])
  }

  function AfterIac(t: Engine, b: Byte): (Engine, seq<Event>) {
    if b == SB then (t.(state := SbState), [])
    else if b == WILL then (t.(state := WillState), [])
    else if b == WONT then (t.(state := WontState), [])
    else if b == DO then (t.(state := DoState), [])
    else if b == DONT then (t.(state := DontState), [])
    else if b == IAC then (t.(state := DataState), [Data([IAC])])
    else (t.(state := DataState), [Command(b)])
  }

  function ByteStep(t: Engine, sup: Support, proxy: bool, b: Byte): (Engine, seq<Event>) {
    match t.state
    case DataState => if b == IAC then (t.(state := IacState), []) else (t, [Data([b])])
    case IacState => AfterIac(t, b)
    case WillState => VerbStep(t, sup, proxy, Will, b)
    case WontState => VerbStep(t, sup, proxy, Wont, b)
    case DoState => VerbStep(t, sup, proxy, Do, b)
    case DontState => VerbStep(t, sup, proxy, Dont, b)
    case SbState => (t.(state := SbData, opt := b, buf := []), [])
    case SbData => if b == IAC then (t.(state := SbDataIac), []) else Push(t, b, SbData)
    case SbDataIac =>
      if b == SE then (t.(state := DataState), [Subnegotiation(t.opt, t.buf)])
      else if b == IAC then Push(t, IAC, SbData)
      else
        var (t', evs) := AfterIac(t.(state := IacState), b);
        (t', [Warning(Protocol), Subnegotiation(t.opt, t.buf)] + evs)
  }

  function VerbStep(t: Engine, sup: Support, proxy: bool, v: Verb, b: Byte): (Engine, seq<Event>) {
    var (q, evs) := Negotiation(t.q, sup, proxy, v, b);
    (t.(state := DataState, q := q), evs)
  }

  /** The whole input, byte by byte. */
  function Fold(t: Engine, sup: Support, proxy: bool, input: seq<Byte>): (Engine, seq<Event>)
    decreases |input|
  {
    if input == [] then (t, [])
    else
      var (t1, evs1) := Fold(t, sup, proxy, input[..|input| - 1]);
      var (t2, evs2) := ByteStep(t1, sup, proxy, input[|input| - 1]);
      (t2, evs1 + evs2)
  }

  /** Data events taken apart into single bytes: two event sequences that differ in how data is grouped flatten
      alike. */
  function Flat(evs: seq<Event>): seq<Event> {
    if evs == [] then [] else Flat(evs[..|evs| - 1]) + FlatEvent(evs[|evs| - 1])
  }

  function FlatEvent(e: Event): seq<Event> {
    if e.Data? then seq(|e.bytes|, i requires 0 <= i < |e.bytes| => Data([e.bytes[i]])) else [e]
  }

  /** Receiving in two parts is receiving the whole. */
  lemma {:induction false} FoldSplit(t: Engine, sup: Support, proxy: bool, a: seq<Byte>, b: seq<Byte>)
    ensures var (t1, evs1) := Fold(t, sup, proxy, a);
            var (t2, evs2) := Fold(t1, sup, proxy, b);
            Fold(t, sup, proxy, a + b) == (t2, evs1 + evs2)
    decreases |b|
  {
    hide ByteStep;
    if b == [] {
      assert a + b == a;
      assert Fold(t, sup, proxy, a).1 + [] == Fold(t, sup, proxy, a).1;
    } else {
      var n := |a + b| - 1;
      var front := b[..|b| - 1];
      assert (a + b)[..n] == a + front && (a + b)[n] == b[|b| - 1];
      FoldSplit(t, sup, proxy, a, front);
      var (t1, evs1) := Fold(t, sup, proxy, a);
      var (t2, evs2) := Fold(t1, sup, proxy, front);
      var (t3, evs3) := ByteStep(t2, sup, proxy, b[|b| - 1]);
      assert evs1 + evs2 + evs3 == evs1 + (evs2 + evs3);
    }
  }

  // ---- asking for an option

  /** The option after our program says a verb, and whether it has to be sent. */
  function Asked(o: Option, v: Verb): (Option, Reply) {
    if AboutHim(v) then
      var (us, r) := Ask(o.us, SignOf(v));
      (o.(us := us), r)
    else
      var (him, r) := Ask(o.him, SignOf(v));
      (o.(him := him), r)
  }

  function Asking(q: Options, proxy: bool, v: Verb, opt: Byte): (Options, seq<Event>) {
    if proxy then (q, [Send([IAC, VerbByte(v), opt])])
    else
      var o := Get(q, opt);
      var (o', r) := Asked(o, v);
      (if o' == o then q else q[opt := o'], if r.Silent? then [] else [Send([IAC, VerbByte(v), opt])])
  }

  // ---- sending

  function EscapedByte(b: Byte): seq<Byte> { if b == IAC then [IAC, IAC] else [b] }

  /** Data on the wire: every IAC byte is doubled. */
  function Escaped(s: seq<Byte>): seq<Byte> {
    if s == [] then [] else Escaped(s[..|s| - 1]) + EscapedByte(s[|s| - 1])
  }

  lemma {:induction false} EscapedAppend(a: seq<Byte>, b: seq<Byte>)
    ensures Escaped(a + b) == Escaped(a) + Escaped(b)
    decreases |b|
  {
    if b == [] {
      assert a + b == a;
    } else {
      assert (a + b)[..|a + b| - 1] == a + b[..|b| - 1];
      EscapedAppend(a, b[..|b| - 1]);
    }
  }

  lemma {:induction false} EscapedPlain(s: seq<Byte>)
    requires forall i :: 0 <= i < |s| ==> s[i] != IAC
    ensures Escaped(s) == s
  {
    if s != [] {
      EscapedPlain(s[..|s| - 1]);
    }
  }

  datatype Call = SendData(data: seq<Byte>) | SendSub(opt: Byte, data: seq<Byte>)

  function CallBytes(c: Call): seq<Byte> {
    match c
    case SendData(data) => Escaped(data)
    case SendSub(opt, data) => [IAC, SB, opt] + Escaped(data) + [IAC, SE]
  }

  function CallEvents(c: Call): seq<Event> {
    match c
    case SendData(data) => FlatEvent(Data(data))
    case SendSub(opt, data) => [Subnegotiation(opt, data)]
  }

  /** Everything some calls put on the wire. */
  function Wire(calls: seq<Call>): seq<Byte> {
    if calls == [] then [] else CallBytes(calls[0]) + Wire(calls[1..])
  }

  /** What the other side should be told about them. */
  function Told(calls: seq<Call>): seq<Event> {
    if calls == [] then [] else CallEvents(calls[0]) + Told(calls[1..])
  }

  predicate Fits(c: Call) { c.SendSub? ==> |c.data| <= LIMIT }

  lemma FlatDataStep(data: seq<Byte>, b: Byte)
    ensures FlatEvent(Data(data + [b])) == FlatEvent(Data(data)) + [Data([b])]
    ensures FlatEvent(Data([])) == []
  {
  }

  /** Escaped data arrives as itself. */
  lemma {:induction false} DataArrives(t: Engine, sup: Support, proxy: bool, data: seq<Byte>)
    requires t.state == DataState
    ensures Fold(t, sup, proxy, Escaped(data)) == (t, FlatEvent(Data(data)))
    decreases |data|
  {
    hide ByteStep, Fold, FlatEvent;
    if data != [] {
      var n := |data| - 1;
      var front, b := data[..n], data[n];
      DataArrives(t, sup, proxy, front);
      FoldSplit(t, sup, proxy, Escaped(front), EscapedByte(b));
      ByteArrives(t, sup, proxy, b);
      assert front + [b] == data;
      FlatDataStep(front, b);
    } else {
      FoldNone(t, sup, proxy);
      FlatDataStep([], 0);
    }
  }

  lemma FoldOne(t: Engine, sup: Support, proxy: bool, b: Byte)
    ensures Fold(t, sup, proxy, [b]) == ByteStep(t, sup, proxy, b)
  {
    hide ByteStep;
    assert [b][..0] == [];
    assert Fold(t, sup, proxy, []) == (t, []);
    assert [] + ByteStep(t, sup, proxy, b).1 == ByteStep(t, sup, proxy, b).1;
  }

  lemma FoldTwo(t: Engine, sup: Support, proxy: bool, a: Byte, b: Byte)
    ensures var (t1, evs1) := ByteStep(t, sup, proxy, a);
            var (t2, evs2) := ByteStep(t1, sup, proxy, b);
            Fold(t, sup, proxy, [a, b]) == (t2, evs1 + evs2)
  {
    hide ByteStep;
    assert [a, b] == [a] + [b];
    FoldSplit(t, sup, proxy, [a], [b]);
    FoldOne(t, sup, proxy, a);
    FoldOne(ByteStep(t, sup, proxy, a).0, sup, proxy, b);
  }

  lemma ByteArrives(t: Engine, sup: Support, proxy: bool, b: Byte)
    requires t.state == DataState
    ensures Fold(t, sup, proxy, EscapedByte(b)) == (t, [Data([b])])
  {
    hide Negotiation;
    if b == IAC {
      FoldTwo(t, sup, proxy, IAC, IAC);
      assert [] + [Data([IAC])] == [Data([IAC])];
    } else {
      FoldOne(t, sup, proxy, b);
    }
  }

  /** The code of a verb on the wire (RFC 854). */
  function Code(v: Verb): Byte {
    match v
    case Will => 251
    case Wont => 252
    case Do => 253
    case Dont => 254
  }

  /** The three bytes of a verb and its option have the effect of the negotiation they spell, and no other. */
  lemma VerbArrives(t: Engine, sup: Support, proxy: bool, v: Verb, opt: Byte)
    requires t.state == DataState
    ensures var (q, evs) := Negotiation(t.q, sup, proxy, v, opt);
            Fold(t, sup, proxy, [255, Code(v), opt]) == (t.(q := q), evs)
  {
    hide Negotiation, Fold;
    var (t1, none) := Fold(t, sup, proxy, [255, Code(v)]);
    FoldTwo(t, sup, proxy, 255, Code(v));
    assert none == [];
    assert [255, Code(v), opt] == [255, Code(v)] + [opt];
    FoldSplit(t, sup, proxy, [255, Code(v)], [opt]);
    FoldOne(t1, sup, proxy, opt);
    var (_, evs) := Negotiation(t.q, sup, proxy, v, opt);
    assert Fold(t, sup, proxy, [255, Code(v), opt]).1 == [] + evs == evs;
  }

  /** A proxy keeps no options: what it hears it tells, and what it is asked it sends. */
  lemma ProxyPassesOn(t: Engine, sup: Support, v: Verb, opt: Byte)
    requires t.state == DataState
    ensures Fold(t, sup, true, [255, Code(v), opt])
            == (t, [if Code(v) == 251 then OnWill(opt) else if Code(v) == 252 then OnWont(opt)
                    else if Code(v) == 253 then OnDo(opt) else OnDont(opt)])
    ensures Asking(t.q, true, v, opt) == (t.q, [Send([255, Code(v), opt])])
  {
    hide Fold;
    VerbArrives(t, sup, true, v, opt);
  }

  /** The other commands are reported as they are. */
  lemma CommandArrives(t: Engine, sup: Support, proxy: bool, b: Byte)
    requires t.state == DataState && b < 250
    ensures Fold(t, sup, proxy, [255, b]) == (t, [Command(b)])
  {
    hide Negotiation, Fold;
    FoldTwo(t, sup, proxy, 255, b);
    assert [] + [Command(b)] == [Command(b)];
  }

  /** A command inside a subnegotiation ends it: what was buffered is handed over, and the command has the effect that
      it has outside. */
  lemma CommandInside(t: Engine, sup: Support, proxy: bool, b: Byte)
    requires t.state == SbData && b != 240 && b != 255
    ensures var (t1, evs) := Fold(t.(state := DataState), sup, proxy, [255, b]);
            Fold(t, sup, proxy, [255, b]) == (t1, [Warning(Protocol), Subnegotiation(t.opt, t.buf)] + evs)
  {
    hide Negotiation, Fold;
    FoldTwo(t, sup, proxy, 255, b);
    FoldTwo(t.(state := DataState), sup, proxy, 255, b);
    var evs := AfterIac(t.(state := IacState), b).1;
    var broken := [Warning(Protocol), Subnegotiation(t.opt, t.buf)] + evs;
    assert [] + evs == evs && [] + broken == broken;
  }

  /** A payload byte inside a subnegotiation is buffered, or is one too many. */
  lemma PayloadByte(t: Engine, sup: Support, proxy: bool, b: Byte)
    requires t.state == SbData
    ensures Fold(t, sup, proxy, EscapedByte(b)) == Push(t, b, SbData)
  {
    hide Negotiation, NextSize;
    if b == IAC {
      FoldTwo(t, sup, proxy, IAC, IAC);
      assert Push(t.(state := SbDataIac), IAC, SbData) == Push(t, IAC, SbData);
      assert [] + Push(t, IAC, SbData).1 == Push(t, IAC, SbData).1;
    } else {
      FoldOne(t, sup, proxy, b);
    }
  }

  /** There is room for a byte exactly below the limit. */
  lemma PushRoom(t: Engine, b: Byte)
    requires Sane(t) && t.state == SbData
    ensures var (t', evs) := Push(t, b, SbData);
            && Sane(t')
            && if |t.buf| < LIMIT then evs == [] && t' == t.(buf := t.buf + [b], size := t'.size)
               else evs == [Warning(Overflow)] && t' == t.(state := DataState)
  {
  }

  /** Up to the limit a payload is buffered whole. */
  lemma {:induction false} PayloadArrives(t: Engine, sup: Support, proxy: bool, data: seq<Byte>)
    requires t.state == SbData && Sane(t) && t.buf == [] && |data| <= LIMIT
    ensures var (t', evs) := Fold(t, sup, proxy, Escaped(data));
            evs == [] && Sane(t') && t' == t.(buf := data, size := t'.size)
    decreases |data|
  {
    hide Negotiation, ByteStep, Push, Sane, Fold;
    if data != [] {
      var n := |data| - 1;
      var front, b := data[..n], data[n];
      PayloadArrives(t, sup, proxy, front);
      FoldSplit(t, sup, proxy, Escaped(front), EscapedByte(b));
      var t1 := Fold(t, sup, proxy, Escaped(front)).0;
      PayloadByte(t1, sup, proxy, b);
      PushRoom(t1, b);
      assert front + [b] == data;
    } else {
      FoldNone(t, sup, proxy);
    }
  }

  lemma HeaderArrives(t: Engine, sup: Support, proxy: bool, opt: Byte)
    requires t.state == DataState
    ensures Fold(t, sup, proxy, [IAC, SB, opt]) == (t.(state := SbData, opt := opt, buf := []), [])
  {
    hide Negotiation;
    assert [IAC, SB, opt] == [IAC, SB] + [opt];
    FoldTwo(t, sup, proxy, IAC, SB);
    FoldSplit(t, sup, proxy, [IAC, SB], [opt]);
    FoldOne(t.(state := SbState), sup, proxy, opt);
  }

  /** One call arrives as one piece of data, or as one subnegotiation. */
  lemma CallArrives(t: Engine, sup: Support, proxy: bool, c: Call)
    requires t.state == DataState && Sane(t) && Fits(c)
    ensures var (t', evs) := Fold(t, sup, proxy, CallBytes(c));
            evs == CallEvents(c) && t'.state == DataState && Sane(t') && t'.q == t.q
  {
    hide Negotiation, Fold, Escaped;
    match c
    case SendData(data) => DataArrives(t, sup, proxy, data);
    case SendSub(opt, data) =>
      HeaderArrives(t, sup, proxy, opt);
      var t1 := t.(state := SbData, opt := opt, buf := []);
      PayloadArrives(t1, sup, proxy, data);
      var t2 := Fold(t1, sup, proxy, Escaped(data)).0;
      FoldSplit(t, sup, proxy, [IAC, SB, opt], Escaped(data));
      FoldSplit(t, sup, proxy, [IAC, SB, opt] + Escaped(data), [IAC, SE]);
      FoldTwo(t2, sup, proxy, IAC, SE);
  }

  /** A payload over the limit raises an overflow. */
  lemma OverflowArrives(t: Engine, sup: Support, proxy: bool, c: Call)
    requires t.state == DataState && Sane(t) && !Fits(c)
    ensures Warning(Overflow) in Fold(t, sup, proxy, CallBytes(c)).1
  {
    hide Negotiation, ByteStep, Fold, Escaped;
    var head, rest, b := c.data[..LIMIT], c.data[LIMIT + 1..], c.data[LIMIT];
    HeaderArrives(t, sup, proxy, c.opt);
    var t1 := t.(state := SbData, opt := c.opt, buf := []);
    PayloadArrives(t1, sup, proxy, head);
    var t2 := Fold(t1, sup, proxy, Escaped(head)).0;
    PayloadByte(t2, sup, proxy, b);
    PushRoom(t2, b);
    FoldSplit(t, sup, proxy, [IAC, SB, c.opt], Escaped(head));
    FoldSplit(t, sup, proxy, [IAC, SB, c.opt] + Escaped(head), EscapedByte(b));
    assert Warning(Overflow) in Fold(t2, sup, proxy, EscapedByte(b)).1;
    var upto := [IAC, SB, c.opt] + Escaped(head) + EscapedByte(b);
    FoldSplit(t, sup, proxy, upto, Escaped(rest) + [IAC, SE]);
    EscapedParts(head, b, rest);
    assert c.data == head + [b] + rest;
    assert CallBytes(c) == upto + (Escaped(rest) + [IAC, SE]);
  }

  lemma EscapedParts(head: seq<Byte>, b: Byte, rest: seq<Byte>)
    ensures Escaped(head + [b] + rest) == Escaped(head) + EscapedByte(b) + Escaped(rest)
  {
    EscapedAppend(head + [b], rest);
    EscapedAppend(head, [b]);
    assert [b][..0] == [];
    assert Escaped([]) + EscapedByte(b) == EscapedByte(b);
  }

  predicate NoWarning(evs: seq<Event>) { forall i :: 0 <= i < |evs| ==> !evs[i].Warning? }

  lemma {:induction false} ToldPlain(calls: seq<Call>)
    ensures NoWarning(Told(calls))
  {
    if calls != [] {
      ToldPlain(calls[1..]);
    }
  }

  /** The receiver is told exactly what was sent, call by call, if and only if no subnegotiation is over the limit. */
  lemma {:induction false} RoundTrip(t: Engine, sup: Support, proxy: bool, calls: seq<Call>)
    requires t.state == DataState && Sane(t)
    ensures var (t', evs) := Fold(t, sup, proxy, Wire(calls));
            if forall i :: 0 <= i < |calls| ==> Fits(calls[i])
            then evs == Told(calls) && t'.state == DataState && t'.q == t.q
            else Warning(Overflow) in evs && evs != Told(calls)
    decreases |calls|
  {
    hide Fold, CallBytes, CallEvents, Fits, Sane;
    if calls == [] {
      FoldNone(t, sup, proxy);
    } else {
      FoldSplit(t, sup, proxy, CallBytes(calls[0]), Wire(calls[1..]));
      if Fits(calls[0]) {
        CallArrives(t, sup, proxy, calls[0]);
        var t1 := Fold(t, sup, proxy, CallBytes(calls[0])).0;
        RoundTrip(t1, sup, proxy, calls[1..]);
        assert forall i :: 0 <= i < |calls| - 1 ==> calls[1..][i] == calls[i + 1];
        assert (forall i :: 0 <= i < |calls| ==> Fits(calls[i])) <==>
                 (forall i :: 0 <= i < |calls[1..]| ==> Fits(calls[1..][i])) by {
          if forall i :: 0 <= i < |calls[1..]| ==> Fits(calls[1..][i]) {
            forall i | 0 <= i < |calls| ensures Fits(calls[i]) {
              assert i > 0 ==> calls[i] == calls[1..][i - 1];
            }
          }
        }
      } else {
        OverflowArrives(t, sup, proxy, calls[0]);
      }
      ToldPlain(calls);
    }
  }

  lemma FoldNone(t: Engine, sup: Support, proxy: bool)
    ensures Fold(t, sup, proxy, []) == (t, [])
  {
  }
}
