/** What every run of the stream parser keeps, and what its clients may rely on. */
module ParserLaws {
  import opened Bytes
  import opened Codec
  import opened ParserMachine
  import opened RealTime
  import opened Segments
  import opened ParserSafety

  // ---- History independence -------------------------------------------------------------------

  /**
    After a status byte nothing of the past is left: two parsers with any histories, given the same status byte
    below F8 and the same bytes after it, emit the same events from there on and end in the same situation.
    */
  lemma HistoryIndependence(past1: seq<Byte>, past2: seq<Byte>, b: Byte, tail: seq<Byte>)
    requires IsStatus(b)
    ensures Run(Idle, past1 + [b] + tail).0 == Run(Idle, past2 + [b] + tail).0 == Run(AfterStatus(b), tail).0
    ensures Run(Idle, past1 + [b] + tail).1 == Run(Idle, past1 + [b]).1 + Run(AfterStatus(b), tail).1
    ensures Run(Idle, past2 + [b] + tail).1 == Run(Idle, past2 + [b]).1 + Run(AfterStatus(b), tail).1
  {
    hide Step, AfterStatus;
    Forgets(past1, b, tail);
    Forgets(past2, b, tail);
  }

  lemma Forgets(past: seq<Byte>, b: Byte, tail: seq<Byte>)
    requires IsStatus(b)
    ensures Run(Idle, past + [b]).0 == AfterStatus(b)
    ensures Run(Idle, past + [b] + tail)
            == (Run(AfterStatus(b), tail).0, Run(Idle, past + [b]).1 + Run(AfterStatus(b), tail).1)
  {
    hide Step, AfterStatus;
    RunReachable(Idle, past);
    StatusStep(Run(Idle, past).0, b);
    RunSnoc(Idle, past, b);
    RunConcat(Idle, past + [b], tail);
  }

  // ---- A status byte and its data -------------------------------------------------------------

  /** A status byte other than F7 and the data bytes after it, from any situation. */
  lemma StatusAndData(m: Mode, b: Byte, data: seq<Byte>)
    requires Reachable(m) && IsStatus(b) && b != 0xF7 && AllData(data)
    ensures Run(m, [b] + data)
            == (Situation(Segment(Some(b), data)), Interrupted(m) + Opening(b) + Body(Segment(Some(b), data)))
  {
    hide Step, Situation, Body, Opening, Interrupted, Run;
    var empty := Segment(Some(b), []);
    RunCons(m, b, data);
    StatusStep(m, b);
    StatusOpens(b);
    DataRun(empty, data);
    assert [] + data == data;
    assert [] + Run(AfterStatus(b), data).1 == Run(AfterStatus(b), data).1;
  }

  lemma StatusOpens(b: Byte)
    requires IsStatus(b)
    ensures Situation(Segment(Some(b), [])) == AfterStatus(b)
    ensures Body(Segment(Some(b), [])) == []
  {
  }

  // ---- Resynchronisation ----------------------------------------------------------------------

  /**
    One well-formed message, pushed from any reachable situation, is read: at most one error comes first, for what
    it interrupts, and then exactly the message. A real-time message leaves the situation alone.
    */
  lemma Resynchronises(m: Mode, w: seq<Byte>)
    requires Reachable(m) && Decode(w).Ok?
    ensures IsRealTime(w[0]) ==> Run(m, w) == (m, [ToEvent(Decode(w))])
    ensures !IsRealTime(w[0]) ==> Run(m, w) == (AfterMessage(w[0]), Interrupted(m) + [ToEvent(Decode(w))])
    ensures AfterMessage(w[0]) == if IsChannelStatus(w[0]) then Running(w[0], []) else Idle
    ensures Interrupted(m) == match m
                              case Orphans(len, prefix) => [ErrorEvent(Parse(OrphanedData(len), prefix))]
                              case InSysex(body) => [ErrorEvent(Parse(UnterminatedSysex, [0xF0] + body))]
                              case _ => []
  {
    DecodeAccepts(w);
    if IsRealTime(w[0]) {
      assert w == [w[0]];
      RunOne(m, w[0]);
    } else if w[0] == 0xF0 {
      ResynchronisesSysex(m, w);
    } else {
      ResynchronisesMessage(m, w);
    }
  }

  /** Where a complete message leaves the parser: only a channel message leaves a running status. */
  function AfterMessage(b: Byte): Mode {
    if IsChannelStatus(b) then Running(b, []) else Idle
  }

  lemma ResynchronisesMessage(m: Mode, w: seq<Byte>)
    requires Reachable(m) && IsOneMessage(w) && w[0] < 0xF8 && w[0] != 0xF0
    ensures Run(m, w) == (AfterMessage(w[0]), Interrupted(m) + [ToEvent(Decode(w))])
  {
    hide Decode, Run, Body, Situation, Opening, Interrupted;
    var b, data := w[0], w[1..];
    assert w == [b] + data;
    StatusAndData(m, b, data);
    var seg := Segment(Some(b), data);
    OneMessageBody(b, data);
    assert Interrupted(m) + Opening(b) + Body(seg) == Interrupted(m) + (Opening(b) + Body(seg));
  }

  lemma OneMessageBody(b: Byte, data: seq<Byte>)
    requires 0x80 <= b < 0xF8 && b != 0xF0 && IsOneMessage([b] + data) && AllData(data)
    ensures Opening(b) + Body(Segment(Some(b), data)) == [ToEvent(Decode([b] + data))]
    ensures Situation(Segment(Some(b), data)) == AfterMessage(b)
  {
    hide Decode;
    if IsChannelStatus(b) {
      assert |data| == Needed(b);
      assert Group(data, |data|, 0) == data;
      assert Groups(b, data) == [Assembled(b, data)];
    } else if b <= 0xF3 {
      assert data[..|data|] == data;
    } else {
      assert data == [] && [b] + data == [b];
      TuneRequestDecodes();
    }
  }

  lemma TuneRequestDecodes()
    ensures Decode([0xF6]) == Ok(Message(TuneRequest))
  {
  }

  lemma ResynchronisesSysex(m: Mode, w: seq<Byte>)
    requires Reachable(m) && IsOneMessage(w) && w[0] == 0xF0
    ensures Run(m, w) == (Idle, Interrupted(m) + [ToEvent(Decode(w))])
  {
    hide Run, Interrupted, Opening;
    var body := w[1..|w| - 1];
    assert w == [0xF0] + body + [0xF7];
    SysexStream(m, body, 0xF7);
    DecodeEncode(SysExMessage(body));
    assert SysexOutcome(body, 0xF7) + [] == [ToEvent(Decode(w))];
    assert Interrupted(m) + SysexOutcome(body, 0xF7) + [] == Interrupted(m) + [ToEvent(Decode(w))];
  }

  // ---- Single bytes and orphan runs -----------------------------------------------------------

  /** A fresh parser answers one byte as the decoder answers it alone, unless the byte begins something longer. */
  lemma FirstByte(b: Byte)
    requires !IsData(b)
    ensures Run(Idle, [b]).1 == if b <= 0xF3 then [] else [ToEvent(Decode([b]))]
  {
    RunOne(Idle, b);
    TuneRequestDecodes();
  }

  /**
    Data bytes that belong to nothing are one error at the next status byte, with their true number and at most the
    first 64 of them. An F7 joins them; any other status byte then has its own event.
    */
  lemma OrphanRuns(run: seq<Byte>, b: Byte)
    requires run != [] && AllData(run) && IsStatus(b)
    ensures Run(Idle, run).1 == []
    ensures b == 0xF7 ==>
              Run(Idle, run + [b]).1
              == [ErrorEvent(Parse(OrphanedData(|run| + 1), (run + [b])[..Min(|run| + 1, 64)]))]
    ensures b != 0xF7 ==>
              Run(Idle, run + [b]).1
              == [ErrorEvent(Parse(OrphanedData(|run|), run[..Min(|run|, 64)]))] + Run(Idle, [b]).1
  {
    hide Step, Opening;
    var seg := Segment(None, []);
    DataRun(seg, run);
    assert [] + run == run;
    assert [] + Run(Idle, run).1 == Run(Idle, run).1;
    RunSnoc(Idle, run, b);
    RunOne(Idle, b);
    StatusStep(Orphans(|run|, Shown(run)), b);
    StatusStep(Idle, b);
    CappedExtend(run, b);
  }

  // ---- SysEx ----------------------------------------------------------------------------------

  /** The events of a SysEx body and the status byte that ends it. */
  function SysexOutcome(body: seq<Byte>, end: Byte): seq<Event>
    requires AllData(body)
  {
    if |body| > MAX_SYSEX_BYTES then [TOO_LONG]
    else if end != 0xF7 then [UnterminatedError(body)]
    else if body == [] then [ErrorEvent(Parse(EmptySysex, [0xF0, 0xF7]))]
    else [SysexEvent(body)]
  }

  /**
    F0, data bytes and a status byte, in numbers: up to 1048576 data bytes make a SysEx if F7 ends them and at least
    one is there, one error with all of them if another status byte does; more are one error that says 1048577.
    */
  lemma SysexLengths(body: seq<Byte>, end: Byte)
    requires AllData(body) && IsStatus(end)
    ensures Run(Idle, [0xF0] + body + [end]).1
            == [if |body| > 1_048_576 then ErrorEvent(SysexTooLong(1_048_577, 1_048_576))
                else if end != 0xF7 then ErrorEvent(Parse(UnterminatedSysex, [0xF0] + body))
                else if body == [] then ErrorEvent(Parse(EmptySysex, [0xF0, 0xF7]))
                else SysexEvent(body)]
               + if end == 0xF7 then [] else Run(Idle, [end]).1
  {
    hide Step, Run, Opening;
    SysexStream(Idle, body, end);
    RunOne(Idle, end);
    StatusStep(Idle, end);
  }

  /** F0, data bytes and the status byte after them, from any situation. */
  lemma SysexStream(m: Mode, body: seq<Byte>, end: Byte)
    requires Reachable(m) && AllData(body) && IsStatus(end)
    ensures Run(m, [0xF0] + body + [end])
            == (AfterStatus(end),
                Interrupted(m) + SysexOutcome(body, end) + if end == 0xF7 then [] else Opening(end))
  {
    hide Step, Run, Body, Closing, Own, Situation, SysexOutcome;
    var seg := Segment(Some(0xF0), body);
    StatusAndData(m, 0xF0, body);
    RunSnoc(m, [0xF0] + body, end);
    StatusCloses(seg, end);
    StatusOpens(end);
    SysexCloses(body, end);
    assert Interrupted(m) + Opening(0xF0) + Body(seg) + (Closing(seg, end) + Own(seg, end))
        == Interrupted(m) + (Body(seg) + Closing(seg, end)) + Own(seg, end);
  }

  lemma SysexCloses(body: seq<Byte>, end: Byte)
    requires AllData(body) && IsStatus(end)
    ensures var seg := Segment(Some(0xF0), body);
            && Body(seg) + Closing(seg, end) == SysexOutcome(body, end)
            && Own(seg, end) == if end == 0xF7 then [] else Opening(end)
  {
    SysExFrame(body);
    assert SysExWire([]) == [0xF0, 0xF7];
  }

  /**
    SysEx exactness: F0, then n data bytes with real-time bytes anywhere among them, then a status byte. With F7, a
    body of 1..MAX bytes arrives whole and unchanged, and an empty one is one error. A body over MAX is exactly one
    error, reported as MAX + 1, however it ends. Whatever the outcome, the parser is where the last byte puts it.
    */
  lemma SysexExact(m: Mode, x: seq<Byte>, end: Byte)
    requires Reachable(m) && IsStatus(end)
    requires forall i | 0 <= i < |x| :: IsData(x[i]) || IsRealTime(x[i])
    ensures var run := Run(m, [0xF0] + x + [end]);
            && run.0 == AfterStatus(end)
            && RealTimeEvents(run.1) == Answers(RealTimeBytes(x))
            && AllData(NonRealTime(x))
            && OtherEvents(run.1) == Interrupted(m) + SysexOutcome(NonRealTime(x), end)
                                     + if end == 0xF7 then [] else Opening(end)
  {
    hide Run, Interrupted, SysexOutcome, Opening, AfterStatus;
    var wire := [0xF0] + x + [end];
    RealTimeTransparent(m, wire);
    FilterConcat(b => !IsRealTime(b), [0xF0] + x, [end]);
    FilterConcat(b => !IsRealTime(b), [0xF0], x);
    assert NonRealTime(wire) == [0xF0] + NonRealTime(x) + [end];
    FilterConcat(b => IsRealTime(b), [0xF0] + x, [end]);
    FilterConcat(b => IsRealTime(b), [0xF0], x);
    assert RealTimeBytes(wire) == RealTimeBytes(x);
    DataRemains(x);
    SysexStream(m, NonRealTime(x), end);
  }

  /** The stream parser and the one-shot decoder read a frame alike: the same single event. */
  predicate ReadAlike(body: seq<Byte>) {
    Run(Idle, SysExWire(body)).1 == [ToEvent(Decode(SysExWire(body)))]
  }

  /** For a 7-bit body they do up to MAX + 1 bytes; then the decoder reports more, the parser always MAX + 1. */
  lemma DataFrameReadAlike(body: seq<Byte>)
    requires AllData(body)
    ensures ReadAlike(body) <==> |body| <= MAX_SYSEX_BYTES + 1
  {
    hide Run;
    SysexStream(Idle, body, 0xF7);
    SysExFrame(body);
    assert [] + SysexOutcome(body, 0xF7) + [] == SysexOutcome(body, 0xF7);
    assert SysExWire([]) == [0xF0, 0xF7];
  }

  /** A status or real-time byte in the body, no more than MAX bytes in, is what the parser reacts to first. */
  lemma FirstNonDataSpeaks(body: seq<Byte>, k: nat)
    requires k < |body| && k <= MAX_SYSEX_BYTES && AllData(body[..k]) && !IsData(body[k])
    ensures var events := Run(Idle, SysExWire(body)).1;
            events != [] && events[0] != TOO_LONG
  {
    var front, rest := [0xF0] + body[..k], body[k + 1..] + [0xF7];
    var m := InSysex(body[..k]);
    assert SysExWire(body) == front + ([body[k]] + rest);
    StatusAndData(Idle, 0xF0, body[..k]);
    assert Run(Idle, front).0 == m && Run(Idle, front).1 == [];
    hide Run, Decode;
    RunConcat(Idle, front, [body[k]] + rest);
    RunCons(m, body[k], rest);
    InterruptionSpeaks(body[..k], body[k]);
  }

  lemma InterruptionSpeaks(body: seq<Byte>, b: Byte)
    requires AllData(body) && |body| <= MAX_SYSEX_BYTES && !IsData(b)
    ensures var events := Step(InSysex(body), b).1;
            events != [] && events[0] != TOO_LONG
  {
    SysExFrame(body);
    if IsRealTime(b) {
      RealTimeStep(InSysex(body), b);
    }
  }

  lemma NeverEmitted(bytes: seq<Byte>, len: nat)
    ensures !Sound(ErrorEvent(Parse(SysexDataOutOfRange, bytes)))
    ensures len != MAX_SYSEX_BYTES + 1 ==> !Sound(ErrorEvent(SysexTooLong(len, MAX_SYSEX_BYTES)))
  {
  }

  /** With such a byte in it, a frame is never read alike: the decoder's error is one the parser does not emit. */
  lemma OtherFramesReadDifferently(body: seq<Byte>)
    requires !AllData(body)
    ensures !ReadAlike(body)
  {
    hide Run, Decode, Sound;
    var wire := SysExWire(body);
    DecodeRejects(wire);
    assert wire[1..|wire| - 1] == body;
    RunSound(Idle, wire);
    if ReadAlike(body) {
      var e := Run(Idle, wire).1[0];
      assert Sound(e);
      if |body| == MAX_SYSEX_BYTES + 1 {
        FirstNonDataSpeaks(body, FirstHighBit(body).value);
      } else {
        NeverEmitted(wire, |body|);
      }
    }
  }

  /**
    Frame reading: for every body, parser and decoder read its frame alike exactly when the body is 7-bit and at most
    one byte too long.
    */
  lemma FrameReadAlike(body: seq<Byte>)
    ensures ReadAlike(body) <==> AllData(body) && |body| <= MAX_SYSEX_BYTES + 1
  {
    if AllData(body) {
      DataFrameReadAlike(body);
    } else {
      OtherFramesReadDifferently(body);
    }
  }

  /** The shortest frame read differently: the decoder refuses F0 90 F7 whole, the parser reports its two parts. */
  lemma FrameReadDifferently()
    ensures !ReadAlike([0x90])
    ensures Decode([0xF0, 0x90, 0xF7]) == Err(Parse(SysexDataOutOfRange, [0xF0, 0x90, 0xF7]))
    ensures Run(Idle, [0xF0, 0x90, 0xF7]).1
            == [UnterminatedError([]), ErrorEvent(Parse(StandaloneSysexEnd, [0xF7]))]
  {
    assert !IsData([0x90][0]);
    FrameReadAlike([0x90]);
  }

  lemma {:induction false} DataRemains(x: seq<Byte>)
    requires forall i | 0 <= i < |x| :: IsData(x[i]) || IsRealTime(x[i])
    ensures AllData(NonRealTime(x))
  {
    if x == [] {
    } else {
      DataRemains(x[1..]);
    }
  }

  // ---- Running status -------------------------------------------------------------------------

  /** Repeating the status byte between whole messages of that status says nothing new. */
  lemma RunningStatusStep(status: Byte)
    requires IsChannelStatus(status)
    ensures Step(Running(status, []), status) == (Running(status, []), [])
  {
  }

  /**
    Running status: after a channel status byte and whole messages' worth of data, real-time bytes anywhere among
    them, sending the same status byte again or leaving it out gives the same events and the same situation.
    */
  lemma RunningStatusEquivalence(m: Mode, past: seq<Byte>, status: Byte, x: seq<Byte>, tail: seq<Byte>)
    requires Reachable(m) && IsChannelStatus(status)
    requires forall i | 0 <= i < |x| :: IsData(x[i]) || IsRealTime(x[i])
    requires |NonRealTime(x)| % Needed(status) == 0
    ensures Run(m, past + [status] + x + [status] + tail) == Run(m, past + [status] + x + tail)
  {
    hide Step, Run, Situation;
    var front := past + [status] + x;
    BetweenMessages(m, past, status, x);
    RunningStatusStep(status);
    RunConcat(m, front, tail);
    RunCons(Running(status, []), status, tail);
    RunConcat(m, front, [status] + tail);
    assert front + [status] + tail == front + ([status] + tail);
    assert [] + Run(Running(status, []), tail).1 == Run(Running(status, []), tail).1;
  }

  lemma BetweenMessages(m: Mode, past: seq<Byte>, status: Byte, x: seq<Byte>)
    requires Reachable(m) && IsChannelStatus(status)
    requires forall i | 0 <= i < |x| :: IsData(x[i]) || IsRealTime(x[i])
    requires |NonRealTime(x)| % Needed(status) == 0
    ensures Run(m, past + [status] + x).0 == Running(status, [])
  {
    hide Step, Run, Body;
    var m1 := Run(m, past).0;
    RunReachable(m, past);
    assert past + [status] + x == past + ([status] + x);
    RunConcat(m, past, [status] + x);
    RealTimeTransparent(m1, [status] + x);
    FilterConcat(b => !IsRealTime(b), [status], x);
    assert NonRealTime([status] + x) == [status] + NonRealTime(x);
    DataRemains(x);
    StatusAndData(m1, status, NonRealTime(x));
  }

  // ---- Round trip -----------------------------------------------------------------------------

  function WireAll(ds: seq<Decoded>): seq<Byte> {
    if ds == [] then [] else Wire(ds[0]) + WireAll(ds[1..])
  }

  /** The event by which a value arrives. */
  function Arrival(d: Decoded): Event {
    ToEvent(Ok(Normal(d)))
  }

  function Arrivals(ds: seq<Decoded>): seq<Event> {
    seq(|ds|, i requires 0 <= i < |ds| => Arrival(ds[i]))
  }

  /** Nothing is pending: no partial message, no orphan run, no open SysEx. */
  predicate Settled(m: Mode) {
    m.Idle? || (m.Running? && IsChannelStatus(m.status) && m.pending == [])
  }

  lemma OneArrives(m: Mode, d: Decoded)
    requires Settled(m)
    ensures Settled(Run(m, Wire(d)).0) && Run(m, Wire(d)).1 == [Arrival(d)]
  {
    hide Decode, Wire, Run;
    DecodeEncode(d);
    WireStart(d);
    Resynchronises(m, Wire(d));
    assert [] + [Arrival(d)] == [Arrival(d)];
  }

  lemma WireStart(d: Decoded)
    ensures |Wire(d)| > 0 && Wire(d)[0] >= 0x80
  {
  }

  lemma {:induction false} AllArrive(m: Mode, ds: seq<Decoded>)
    requires Settled(m)
    ensures Settled(Run(m, WireAll(ds)).0) && Run(m, WireAll(ds)).1 == Arrivals(ds)
    decreases ds
  {
    hide Run, Wire;
    if ds == [] {
      RunNil(m);
    } else {
      OneArrives(m, ds[0]);
      AllArrive(Run(m, Wire(ds[0])).0, ds[1..]);
      RunConcat(m, Wire(ds[0]), WireAll(ds[1..]));
      assert Arrivals(ds) == [Arrival(ds[0])] + Arrivals(ds[1..]);
    }
  }

  /**
    The sequence round trip: encode any list of values, join the bytes, cut them into any chunks and push the
    chunks into a fresh parser. Exactly that list arrives, in order, with no errors and nothing left pending.
    */
  lemma SequenceRoundTrip(ds: seq<Decoded>, chunks: seq<seq<Byte>>)
    requires Flatten(chunks) == WireAll(ds)
    ensures RunChunks(Idle, chunks).1 == Arrivals(ds)
    ensures Settled(RunChunks(Idle, chunks).0)
    ensures forall e <- RunChunks(Idle, chunks).1 :: !e.ErrorEvent?
  {
    ChunkingIrrelevant(Idle, chunks);
    AllArrive(Idle, ds);
  }

  /**
    An encoding with running status: `omit[i]` asks to leave out the status byte of message i, which is done when
    the status in force is the same. Real-time messages leave the status in force; every other message that is not
    a channel message cancels it.
    */
  function CompressedWire(ds: seq<Decoded>, omit: seq<bool>, inForce: Option<Byte>): seq<Byte>
    requires |omit| == |ds|
  {
    if ds == [] then []
    else
      var w := Wire(ds[0]);
      WireStart(ds[0]);
      var now := if IsRealTime(w[0]) then inForce else if IsChannelStatus(w[0]) then Some(w[0]) else None;
      (if omit[0] && inForce == Some(w[0]) then w[1..] else w) + CompressedWire(ds[1..], omit[1..], now)
  }

  function InForce(m: Mode): Option<Byte> {
    if m.Running? then Some(m.status) else None
  }

  lemma OneCompressed(m: Mode, d: Decoded)
    requires Settled(m) && InForce(m) == Some((WireStart(d); Wire(d)[0]))
    ensures Run(m, Wire(d)[1..]) == Run(m, Wire(d))
  {
    hide Wire, Run, Step;
    WireStart(d);
    var w := Wire(d);
    assert w == [w[0]] + w[1..];
    RunningStatusStep(w[0]);
    RunCons(m, w[0], w[1..]);
    assert [] + Run(m, w[1..]).1 == Run(m, w[1..]).1;
  }

  lemma ForceAfter(m: Mode, d: Decoded)
    requires Settled(m)
    ensures var b := (WireStart(d); Wire(d)[0]);
            InForce(Run(m, Wire(d)).0)
            == if IsRealTime(b) then InForce(m) else if IsChannelStatus(b) then Some(b) else None
  {
    hide Decode, Wire, Run;
    DecodeEncode(d);
    WireStart(d);
    Resynchronises(m, Wire(d));
  }

  /** Running status changes nothing: whichever permitted status bytes are left out, the same list arrives. */
  lemma {:induction false} CompressedRoundTrip(m: Mode, ds: seq<Decoded>, omit: seq<bool>)
    requires Settled(m) && |omit| == |ds|
    ensures Run(m, CompressedWire(ds, omit, InForce(m))) == Run(m, WireAll(ds))
    ensures Run(m, CompressedWire(ds, omit, InForce(m))).1 == Arrivals(ds)
    decreases ds
  {
    hide Run, Wire;
    AllArrive(m, ds);
    if ds == [] {
    } else {
      var d, w := ds[0], Wire(ds[0]);
      WireStart(d);
      var m1 := Run(m, w).0;
      var sent := if omit[0] && InForce(m) == Some(w[0]) then w[1..] else w;
      if omit[0] && InForce(m) == Some(w[0]) {
        OneCompressed(m, d);
      }
      OneArrives(m, d);
      ForceAfter(m, d);
      CompressedRoundTrip(m1, ds[1..], omit[1..]);
      RunConcat(m, sent, CompressedWire(ds[1..], omit[1..], InForce(m1)));
      RunConcat(m, w, WireAll(ds[1..]));
    }
  }
}
