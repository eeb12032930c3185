/** The telnet engine as it runs: one buffer that grows, and events as they are raised (libtelnet.c). */
module Telnet {
  import opened Bytes
  import opened TelnetQ
  import opened TelnetStream

  const BUFFER_SIZES: seq<nat> := [0, 512, 2048, 8192, 16384]

  class Tracker {
    const sup: Support
    const proxy: bool
    var state: State
    var sbTelopt: Byte
    var buffer: array<Byte>
    var bufferSize: nat
    var bufferPos: nat
    var q: Options
    var events: seq<Event>

    ghost predicate Valid()
      reads this
    {
      BufferSize(bufferSize) && bufferPos <= bufferSize == buffer.Length
    }

    function Engine(): TelnetStream.Engine
      requires bufferPos <= buffer.Length
      reads this, buffer
    {
      TelnetStream.Engine(state, sbTelopt, buffer[..bufferPos], bufferSize, q)
    }

    constructor (support: Support, isProxy: bool)
      ensures Valid() && fresh(buffer) && sup == support && proxy == isProxy && events == []
      ensures Engine() == UP
    {
      sup, proxy := support, isProxy;
      state, sbTelopt, bufferSize, bufferPos, q, events := DataState, 0, 0, 0, map[], [];
      buffer := new Byte[0];
    }

    /** Raises an event. */
    method Raise(e: Event)
      modifies this`events
      ensures events == old(events) + [e] && Flat(events) == Flat(old(events)) + FlatEvent(e)
    {
      events := events + [e];
      assert events[..|events| - 1] == old(events);
    }

    /** Raises an event if there is data for it. */
    method RaiseData(bytes: seq<Byte>)
      modifies this`events
      ensures Flat(events) == Flat(old(events)) + FlatEvent(Data(bytes))
    {
      if bytes != [] {
        Raise(Data(bytes));
      } else {
        assert FlatEvent(Data(bytes)) == [];
      }
    }

    // ---- negotiation

    method SetOption(opt: Byte, us: Q, him: Q)
      modifies this`q
      ensures q == old(q)[opt := Option(us, him)]
    {
      q := q[opt := Option(us, him)];
    }

    method SendNegotiate(cmd: Byte, opt: Byte)
      modifies this`events
      ensures events == old(events) + [Send([IAC, cmd, opt])]
    {
      Raise(Send([IAC, cmd, opt]));
    }

    /** The other side offers an option, or agrees to one. */
    method ReceiveWill(opt: Byte)
      requires !proxy
      modifies this`q, this`events
      ensures q == Negotiation(old(q), sup, proxy, Will, opt).0
      ensures events == old(events) + Negotiation(old(q), sup, proxy, Will, opt).1
    {
      hide Flat, FlatEvent;
      var o := Get(q, opt);
      match o.him {
        case No =>
          if opt in sup.him {
            SetOption(opt, o.us, Yes);
            SendNegotiate(DO, opt);
            Raise(OnWill(opt));
          } else {
            SendNegotiate(DONT, opt);
          }
        case WantNo =>
          SetOption(opt, o.us, No);
          Raise(OnWont(opt));
          Raise(Warning(Protocol));
        case WantNoOp =>
          SetOption(opt, o.us, Yes);
          Raise(OnWill(opt));
          Raise(Warning(Protocol));
        case WantYes =>
          SetOption(opt, o.us, Yes);
          Raise(OnWill(opt));
        case WantYesOp =>
          SetOption(opt, o.us, WantNo);
          SendNegotiate(DONT, opt);
          Raise(OnWill(opt));
        case Yes =>
      }
    }

    /** The other side drops an option, or refuses one. */
    method ReceiveWont(opt: Byte)
      requires !proxy
      modifies this`q, this`events
      ensures q == Negotiation(old(q), sup, proxy, Wont, opt).0
      ensures events == old(events) + Negotiation(old(q), sup, proxy, Wont, opt).1
    {
      hide Flat, FlatEvent;
      var o := Get(q, opt);
      match o.him {
        case Yes =>
          SetOption(opt, o.us, No);
          SendNegotiate(DONT, opt);
          Raise(OnWont(opt));
        case WantNo =>
          SetOption(opt, o.us, No);
          Raise(OnWont(opt));
        case WantNoOp =>
          SetOption(opt, o.us, WantYes);
          Raise(OnDo(opt));
        case WantYes => SetOption(opt, o.us, No);
        case WantYesOp => SetOption(opt, o.us, No);
        case No =>
      }
    }

    /** The other side asks us for an option, or agrees to ours. */
    method ReceiveDo(opt: Byte)
      requires !proxy
      modifies this`q, this`events
      ensures q == Negotiation(old(q), sup, proxy, Do, opt).0
      ensures events == old(events) + Negotiation(old(q), sup, proxy, Do, opt).1
    {
      hide Flat, FlatEvent;
      var o := Get(q, opt);
      match o.us {
        case No =>
          if opt in sup.us {
            SetOption(opt, Yes, o.him);
            SendNegotiate(WILL, opt);
            Raise(OnDo(opt));
          } else {
            SendNegotiate(WONT, opt);
          }
        case WantNo =>
          SetOption(opt, No, o.him);
          Raise(OnDont(opt));
          Raise(Warning(Protocol));
        case WantNoOp =>
          SetOption(opt, Yes, o.him);
          Raise(OnDo(opt));
          Raise(Warning(Protocol));
        case WantYes =>
          SetOption(opt, Yes, o.him);
          Raise(OnDo(opt));
        case WantYesOp =>
          SetOption(opt, WantNo, o.him);
          SendNegotiate(WONT, opt);
          Raise(OnDo(opt));
        case Yes =>
      }
    }

    /** The other side asks us to drop an option, or refuses ours. */
    method ReceiveDont(opt: Byte)
      requires !proxy
      modifies this`q, this`events
      ensures q == Negotiation(old(q), sup, proxy, Dont, opt).0
      ensures events == old(events) + Negotiation(old(q), sup, proxy, Dont, opt).1
    {
      hide Flat, FlatEvent;
      var o := Get(q, opt);
      match o.us {
        case Yes =>
          SetOption(opt, No, o.him);
          SendNegotiate(WONT, opt);
          Raise(OnDont(opt));
        case WantNo =>
          SetOption(opt, No, o.him);
          Raise(OnWont(opt));
        case WantNoOp =>
          SetOption(opt, WantYes, o.him);
          Raise(OnWill(opt));
        case WantYes => SetOption(opt, No, o.him);
        case WantYesOp => SetOption(opt, No, o.him);
        case No =>
      }
    }

    method Negotiate(v: Verb, opt: Byte)
      modifies this`q, this`events
      ensures q == Negotiation(old(q), sup, proxy, v, opt).0
      ensures Flat(events) == Flat(old(events)) + Negotiation(old(q), sup, proxy, v, opt).1
    {
      ghost var evs := Negotiation(q, sup, proxy, v, opt).1;
      NegotiationNoData(q, sup, proxy, v, opt);
      if proxy {
        match v {
          case Will => Raise(OnWill(opt));
          case Wont => Raise(OnWont(opt));
          case Do => Raise(OnDo(opt));
          case Dont => Raise(OnDont(opt));
        }
      } else {
        hide Negotiation, Flat;
        match v {
          case Will => ReceiveWill(opt);
          case Wont => ReceiveWont(opt);
          case Do => ReceiveDo(opt);
          case Dont => ReceiveDont(opt);
        }
        NoDataFlat(old(events), evs);
      }
    }

    // ---- receiving

    method BufferByte(b: Byte) returns (ok: bool)
      requires Valid()
      modifies this`buffer, this`bufferSize, this`bufferPos, this`events, buffer
      ensures Valid() && (buffer == old(buffer) || fresh(buffer))
      ensures ok == Buffered(old(Engine()), b).1 && Engine() == Buffered(old(Engine()), b).0
      ensures Flat(events) == Flat(old(events)) + if ok then [] else [Warning(Overflow)]
    {
      ghost var before := buffer[..bufferPos];
      if bufferPos == bufferSize {
        var i := 0;
        while i != |BUFFER_SIZES|
          invariant i <= |BUFFER_SIZES| && forall j :: 0 <= j < i ==> BUFFER_SIZES[j] != bufferSize
        {
          if BUFFER_SIZES[i] == bufferSize {
            break;
          }
          i := i + 1;
        }
        NextOf(i);
        if i >= |BUFFER_SIZES| - 1 {
          Raise(Warning(Overflow));
          return false;
        }
        var newBuffer := new Byte[BUFFER_SIZES[i + 1]];
        forall j | 0 <= j < bufferPos {
          newBuffer[j] := buffer[j];
        }
        assert newBuffer[..bufferPos] == before;
        buffer := newBuffer;
        bufferSize := BUFFER_SIZES[i + 1];
      }
      buffer[bufferPos] := b;
      bufferPos := bufferPos + 1;
      assert buffer[..bufferPos] == before + [b];
      ok := true;
    }

    lemma NextOf(i: nat)
      requires BufferSize(bufferSize) && i <= |BUFFER_SIZES| && (i < |BUFFER_SIZES| ==> BUFFER_SIZES[i] == bufferSize)
      requires forall j :: 0 <= j < i ==> BUFFER_SIZES[j] != bufferSize
      ensures i < |BUFFER_SIZES| && NextSize(bufferSize) == if i == |BUFFER_SIZES| - 1 then 0 else BUFFER_SIZES[i + 1]
    {
      assert BUFFER_SIZES[0] == 0 && BUFFER_SIZES[1] == 512 && BUFFER_SIZES[2] == 2048;
      assert BUFFER_SIZES[3] == 8192 && BUFFER_SIZES[4] == 16384;
    }

    method Subnegotiate()
      requires Valid()
      modifies this`events
      ensures Flat(events) == Flat(old(events)) + [Subnegotiation(sbTelopt, buffer[..bufferPos])]
    {
      Raise(Subnegotiation(sbTelopt, buffer[..bufferPos]));
    }

    /** A byte after IAC. */
    method CommandByte(b: Byte)
      requires Valid() && state == IacState
      modifies this`state, this`events
      ensures var (t, evs) := AfterIac(old(Engine()), b); Engine() == t && Flat(events) == Flat(old(events)) + evs
    {
      if b == SB {
        state := SbState;
      } else if b == WILL {
        state := WillState;
      } else if b == WONT {
        state := WontState;
      } else if b == DO {
        state := DoState;
      } else if b == DONT {
        state := DontState;
      } else if b == IAC {
        Raise(Data([IAC]));
        assert FlatEvent(Data([IAC])) == [Data([IAC])];
        state := DataState;
      } else {
        Raise(Command(b));
        state := DataState;
      }
    }

    /** The option byte of a negotiation. */
    method OptionByte(v: Verb, b: Byte)
      requires Valid()
      modifies this`state, this`q, this`events
      ensures var (t, evs) := VerbStep(old(Engine()), sup, proxy, v, b);
              Engine() == t && Flat(events) == Flat(old(events)) + evs
    {
      hide Negotiation;
      Negotiate(v, b);
      state := DataState;
    }

    /** Buffers a byte of a subnegotiation, or gives the subnegotiation up. */
    method PayloadByte(b: Byte)
      requires Valid()
      modifies this`state, this`buffer, this`bufferSize, this`bufferPos, this`events, buffer
      ensures Valid() && (buffer == old(buffer) || fresh(buffer))
      ensures var (t, evs) := Push(old(Engine()), b, SbData); Engine() == t && Flat(events) == Flat(old(events)) + evs
    {
      hide Buffered;
      ghost var t := Engine();
      var ok := BufferByte(b);
      state := if ok then SbData else DataState;
      BufferedState(t, b);
    }

    lemma BufferedState(t: TelnetStream.Engine, b: Byte)
      ensures Buffered(t, b).0.state == t.state
    {
    }

    ghost function Rank(): nat
      reads this
    {
      if state == SbDataIac then 1 else 0
    }

    /** A byte outside plain data. */
    method OtherByte(b: Byte)
      requires Valid() && state != DataState
      modifies this, buffer
      ensures Valid() && (buffer == old(buffer) || fresh(buffer))
      ensures var (t, evs) := ByteStep(old(Engine()), sup, proxy, b);
              Engine() == t && Flat(events) == Flat(old(events)) + evs
      decreases Rank(), 0
    {
      hide AfterIac, VerbStep, Push, Flat;
      match state {
        case IacState => CommandByte(b);
        case WillState => OptionByte(Will, b);
        case WontState => OptionByte(Wont, b);
        case DoState => OptionByte(Do, b);
        case DontState => OptionByte(Dont, b);
        case SbState =>
          sbTelopt := b;
          bufferPos := 0;
          state := SbData;
        case SbData =>
          if b == IAC {
            state := SbDataIac;
          } else {
            PayloadByte(b);
          }
        case SbDataIac =>
          if b == SE {
            state := DataState;
            Subnegotiate();
          } else if b == IAC {
            PayloadByte(IAC);
          } else {
            Unexpected(b);
          }
      }
    }

    /** Neither an end nor an escape: the subnegotiation counts as over and the byte as a command. */
    method Unexpected(b: Byte)
      requires Valid() && state == SbDataIac && b != SE && b != IAC
      modifies this, buffer
      ensures Valid() && (buffer == old(buffer) || fresh(buffer))
      ensures var (t, evs) := ByteStep(old(Engine()), sup, proxy, b);
              Engine() == t && Flat(events) == Flat(old(events)) + evs
      decreases 0, 2
    {
      hide AfterIac, Flat, Fold;
      ghost var t := Engine();
      ghost var before := Flat(events);
      Raise(Warning(Protocol));
      state := IacState;
      Subnegotiate();
      FoldOne(t.(state := IacState), sup, proxy, b);
      ghost var evs := AfterIac(t.(state := IacState), b).1;
      Process([b]);
      assert Flat(events) == before + [Warning(Protocol)] + [Subnegotiation(t.opt, t.buf)] + evs;
      assert before + [Warning(Protocol)] + [Subnegotiation(t.opt, t.buf)] + evs
          == before + ([Warning(Protocol), Subnegotiation(t.opt, t.buf)] + evs);
    }

    /** Processes a chunk of input. Data is raised in runs, everything else as it is met. */
    method Process(input: seq<Byte>)
      requires Valid()
      modifies this, buffer
      ensures Valid() && (buffer == old(buffer) || fresh(buffer))
      ensures var (t, evs) := Fold(old(Engine()), sup, proxy, input);
              Engine() == t && Flat(events) == Flat(old(events)) + evs
      decreases if |input| == 1 && state == IacState then 0 else 1, 1
    {
      hide ByteStep, Fold, Flat, FlatEvent, Upto;
      ghost var t, before := Engine(), Flat(events);
      var start := 0;
      UptoStart(sup, proxy, input, t, before);
      for i := 0 to |input|
        invariant Valid() && (buffer == old(buffer) || fresh(buffer)) && start <= i
        invariant Upto(sup, proxy, input, i, start, t, before, Engine(), Flat(events))
                    && (i == 0 ==> state == old(state))
      {
        var byte := input[i];
        ghost var t1, flat1 := Engine(), Flat(events);
        if state == DataState {
          if byte == IAC {
            RaiseData(input[start..i]);
            state := IacState;
          }
          DataNext(sup, proxy, input, i, start, t, before, t1, flat1);
        } else {
          OtherByte(byte);
          OtherNext(sup, proxy, input, i, start, t, before, t1, flat1);
          if state == DataState {
            start := i + 1;
          }
        }
      }
      UptoEnd(sup, proxy, input, start, t, before, Engine(), Flat(events));
      if state == DataState && |input| != start {
        Raise(Data(input[start..]));
      }
    }

    /** Receives bytes in chunks. However the bytes are divided, the engine ends in the same state and has raised the
        same events, once adjacent data is joined. */
    method Receive(chunks: seq<seq<Byte>>)
      requires Valid()
      modifies this, buffer
      ensures Valid() && (buffer == old(buffer) || fresh(buffer))
      ensures var (t, evs) := Fold(old(Engine()), sup, proxy, Concat(chunks));
              Engine() == t && Flat(events) == Flat(old(events)) + evs
    {
      hide Fold, Flat;
      ghost var t, before := Engine(), Flat(events);
      FoldNone(t, sup, proxy);
      for i := 0 to |chunks|
        invariant Valid() && (buffer == old(buffer) || fresh(buffer))
        invariant Engine() == Fold(t, sup, proxy, Concat(chunks[..i])).0
        invariant Flat(events) == before + Fold(t, sup, proxy, Concat(chunks[..i])).1
      {
        assert chunks[..i + 1][..i] == chunks[..i];
        FoldSplit(t, sup, proxy, Concat(chunks[..i]), chunks[i]);
        Process(chunks[i]);
      }
      assert chunks[..|chunks|] == chunks;
    }

    // ---- sending

    /** Says WILL, WONT, DO or DONT for an option, as far as its state asks for it. */
    method NegotiateOption(v: Verb, opt: Byte)
      modifies this`q, this`events
      ensures q == Asking(old(q), proxy, v, opt).0 && events == old(events) + Asking(old(q), proxy, v, opt).1
    {
      hide Flat, FlatEvent;
      if proxy {
        Raise(Send([IAC, VerbByte(v), opt]));
        return;
      }
      var o := Get(q, opt);
      if AboutHim(v) {
        match (v, o.us) {
          case (Will, No) => SetOption(opt, WantYes, o.him); SendNegotiate(WILL, opt);
          case (Will, WantNo) => SetOption(opt, WantNoOp, o.him);
          case (Will, WantYesOp) => SetOption(opt, WantYes, o.him);
          case (Wont, Yes) => SetOption(opt, WantNo, o.him); SendNegotiate(WONT, opt);
          case (Wont, WantYes) => SetOption(opt, WantYesOp, o.him);
          case (Wont, WantNoOp) => SetOption(opt, WantNo, o.him);
          case (Will, Yes) =>
          case (Will, WantYes) =>
          case (Will, WantNoOp) =>
          case (Wont, No) =>
          case (Wont, WantNo) =>
          case (Wont, WantYesOp) =>
        }
      } else {
        match (v, o.him) {
          case (Do, No) => SetOption(opt, o.us, WantYes); SendNegotiate(DO, opt);
          case (Do, WantNo) => SetOption(opt, o.us, WantNoOp);
          case (Do, WantYesOp) => SetOption(opt, o.us, WantYes);
          case (Dont, Yes) => SetOption(opt, o.us, WantNo); SendNegotiate(DONT, opt);
          case (Dont, WantYes) => SetOption(opt, o.us, WantYesOp);
          case (Dont, WantNoOp) => SetOption(opt, o.us, WantNo);
          case (Do, Yes) =>
          case (Do, WantYes) =>
          case (Do, WantNoOp) =>
          case (Dont, No) =>
          case (Dont, WantNo) =>
          case (Dont, WantYesOp) =>
        }
      }
    }

    method SendIac(cmd: Byte)
      modifies this`events
      ensures Output(events) == Output(old(events)) + [IAC, cmd]
    {
      Raise(Send([IAC, cmd]));
    }

    /** Sends data: runs without IAC bytes as they are, and every IAC byte twice. */
    method SendText(data: seq<Byte>)
      modifies this`events
      ensures Output(events) == Output(old(events)) + Escaped(data)
    {
      hide Output, Flat, FlatEvent, Escaped;
      var l := 0;
      assert data[..0] == [];
      EscapedNone();
      for i := 0 to |data|
        invariant l <= i && (forall k :: l <= k < i ==> data[k] != IAC)
        invariant Output(events) == Output(old(events)) + Escaped(data[..l])
      {
        if data[i] == IAC {
          SendRun(data, l, i);
          l := i + 1;
          SendIac(IAC);
          EscapedStep(data, i);
          assert Output(old(events)) + Escaped(data[..i]) + [IAC, IAC]
                   == Output(old(events)) + (Escaped(data[..i]) + [IAC, IAC]);
        }
      }
      SendRun(data, l, |data|);
      assert data[..|data|] == data;
    }

    method SendRun(data: seq<Byte>, l: nat, i: nat)
      requires l <= i <= |data| && forall k :: l <= k < i ==> data[k] != IAC
      modifies this`events
      ensures Output(events) == Output(old(events)) + Escaped(data[l..i])
      ensures Escaped(data[..i]) == Escaped(data[..l]) + Escaped(data[l..i])
    {
      hide Output, Escaped, Flat, FlatEvent;
      EscapedPlain(data[l..i]);
      assert data[..i] == data[..l] + data[l..i];
      EscapedAppend(data[..l], data[l..i]);
      if i != l {
        Raise(Send(data[l..i]));
        OutputNext(old(events), Send(data[l..i]));
      } else {
        assert Output(events) + [] == Output(events);
      }
    }

    method SendSubnegotiation(opt: Byte, data: seq<Byte>)
      modifies this`events
      ensures Output(events) == Output(old(events)) + CallBytes(SendSub(opt, data))
    {
      hide Escaped, Flat, FlatEvent;
      Raise(Send([IAC, SB, opt]));
      SendText(data);
      Raise(Send([IAC, SE]));
    }

    /** Makes a sequence of calls: the other side receives them as `TelnetStream.RoundTrip` says. */
    method SendAll(calls: seq<Call>)
      modifies this`events
      ensures Output(events) == Output(old(events)) + Wire(calls)
    {
      hide Output, CallBytes;
      for i := 0 to |calls|
        invariant Output(events) + Wire(calls[i..]) == Output(old(events)) + Wire(calls)
      {
        assert calls[i..][0] == calls[i] && calls[i..][1..] == calls[i + 1..];
        ghost var was := Output(events);
        match calls[i] {
          case SendData(data) => SendText(data); DataBytes(data);
          case SendSub(opt, data) => SendSubnegotiation(opt, data);
        }
        assert was + (CallBytes(calls[i]) + Wire(calls[i + 1..])) == was + CallBytes(calls[i]) + Wire(calls[i + 1..]);
      }
    }
  }

  /** What has been put on the wire. */
  function Output(evs: seq<Event>): seq<Byte> {
    if evs == [] then []
    else Output(evs[..|evs| - 1]) + if evs[|evs| - 1].Send? then evs[|evs| - 1].bytes else []
  }

  lemma OutputNext(evs: seq<Event>, e: Event)
    ensures Output(evs + [e]) == Output(evs) + if e.Send? then e.bytes else []
  {
    assert (evs + [e])[..|evs|] == evs;
  }

  lemma EscapedNone()
    ensures Escaped([]) == []
  {
  }

  lemma EscapedStep(data: seq<Byte>, i: nat)
    requires i < |data|
    ensures Escaped(data[..i + 1]) == Escaped(data[..i]) + EscapedByte(data[i])
  {
    assert data[..i + 1][..i] == data[..i];
  }

  lemma DataBytes(data: seq<Byte>)
    ensures CallBytes(SendData(data)) == Escaped(data)
  {
  }

  /** The bytes of `input` up to `i` are processed, but for data since `start` that has not been raised yet. */
  ghost predicate Upto(sup: Support, proxy: bool, input: seq<Byte>, i: nat, start: nat,
      t: TelnetStream.Engine, before: seq<Event>, now: TelnetStream.Engine, flat: seq<Event>)
    requires start <= i <= |input|
  {
    && now == Fold(t, sup, proxy, input[..i]).0
    && flat + (if now.state == DataState then FlatEvent(Data(input[start..i])) else [])
         == before + Fold(t, sup, proxy, input[..i]).1
  }

  lemma UptoStart(sup: Support, proxy: bool, input: seq<Byte>, t: TelnetStream.Engine, before: seq<Event>)
    ensures Upto(sup, proxy, input, 0, 0, t, before, t, before)
  {
    hide Fold, FlatEvent;
    assert input[..0] == [] && input[0..0] == [];
    FoldNone(t, sup, proxy);
    FlatDataStep([], 0);
  }

  lemma FoldNext(sup: Support, proxy: bool, input: seq<Byte>, i: nat, t: TelnetStream.Engine)
    requires i < |input|
    ensures var (t1, evs1) := Fold(t, sup, proxy, input[..i]);
            var (t2, evs2) := ByteStep(t1, sup, proxy, input[i]);
            Fold(t, sup, proxy, input[..i + 1]) == (t2, evs1 + evs2)
  {
    hide ByteStep;
    assert input[..i + 1][..i] == input[..i];
  }

  /** A byte of plain data waits; an IAC byte comes after what was waiting has been raised. */
  lemma DataNext(sup: Support, proxy: bool, input: seq<Byte>, i: nat, start: nat,
      t: TelnetStream.Engine, before: seq<Event>, now: TelnetStream.Engine, flat: seq<Event>)
    requires start <= i < |input| && Upto(sup, proxy, input, i, start, t, before, now, flat) && now.state == DataState
    ensures input[i] == IAC ==>
              Upto(sup, proxy, input, i + 1, start, t, before, now.(state := IacState),
                  flat + FlatEvent(Data(input[start..i])))
    ensures input[i] != IAC ==> Upto(sup, proxy, input, i + 1, start, t, before, now, flat)
  {
    hide Fold, FlatEvent, VerbStep, Push, AfterIac;
    FoldNext(sup, proxy, input, i, t);
    assert input[start..i + 1] == input[start..i] + [input[i]];
    FlatDataStep(input[start..i], input[i]);
    var evs := Fold(t, sup, proxy, input[..i]).1;
    assert evs + [] == evs;
    var waiting, d := FlatEvent(Data(input[start..i])), [Data([input[i]])];
    assert before + (evs + d) == before + evs + d;
    assert flat + (waiting + d) == flat + waiting + d;
    assert flat + waiting + [] == flat + waiting;
  }

  lemma OtherNext(sup: Support, proxy: bool, input: seq<Byte>, i: nat, start: nat,
      t: TelnetStream.Engine, before: seq<Event>, now: TelnetStream.Engine, flat: seq<Event>)
    requires start <= i < |input| && Upto(sup, proxy, input, i, start, t, before, now, flat) && now.state != DataState
    ensures var (now', evs) := ByteStep(now, sup, proxy, input[i]);
            Upto(sup, proxy, input, i + 1, if now'.state == DataState then i + 1
                                           else start, t, before, now', flat + evs)
  {
    hide Fold, FlatEvent, ByteStep;
    FoldNext(sup, proxy, input, i, t);
    FlatDataStep([], 0);
    assert input[i + 1..i + 1] == [];
    var done, evs := Fold(t, sup, proxy, input[..i]).1, ByteStep(now, sup, proxy, input[i]).1;
    assert flat + [] == flat && flat + evs + [] == flat + evs;
    assert before + (done + evs) == before + done + evs;
    var now' := ByteStep(now, sup, proxy, input[i]).0;
    var start' := if now'.state == DataState then i + 1 else start;
    assert now' == Fold(t, sup, proxy, input[..i + 1]).0;
    assert Fold(t, sup, proxy, input[..i + 1]).1 == done + evs;
    assert flat == before + done;
    assert (if now'.state == DataState then FlatEvent(Data(input[start'..i + 1])) else []) == [];
  }

  lemma UptoEnd(sup: Support, proxy: bool, input: seq<Byte>, start: nat,
      t: TelnetStream.Engine, before: seq<Event>, now: TelnetStream.Engine, flat: seq<Event>)
    requires start <= |input| && Upto(sup, proxy, input, |input|, start, t, before, now, flat)
    ensures now == Fold(t, sup, proxy, input).0
    ensures before + Fold(t, sup, proxy, input).1
            == if now.state == DataState && start < |input| then flat + FlatEvent(Data(input[start..])) else flat
  {
    hide Fold, FlatEvent;
    assert input[..|input|] == input && input[start..|input|] == input[start..];
    assert start == |input| ==> input[start..] == [];
    assert flat + [] == flat;
    FlatDataStep([], 0);
  }

  lemma NegotiationNoData(q: Options, sup: Support, proxy: bool, v: Verb, opt: Byte)
    ensures forall i :: 0 <= i < |Negotiation(q, sup, proxy, v, opt).1| ==>
              !Negotiation(q, sup, proxy, v, opt).1[i].Data?
  {
  }

  /** Events that carry no data are flat already. */
  lemma {:induction false} NoDataFlat(before: seq<Event>, evs: seq<Event>)
    requires forall i :: 0 <= i < |evs| ==> !evs[i].Data?
    ensures Flat(before + evs) == Flat(before) + evs
    decreases |evs|
  {
    if evs == [] {
      assert before + evs == before;
    } else {
      var n := |evs| - 1;
      assert (before + evs)[..|before + evs| - 1] == before + evs[..n];
      NoDataFlat(before, evs[..n]);
    }
  }
}
