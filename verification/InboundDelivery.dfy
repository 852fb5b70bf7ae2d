/**
  From bytes to receivers: a backend pushes received bytes into a stream parser and emits every decoded event on the
  connection's streams. What arrives is an in-order part of what the bytes mean, and the rest is accounted for.
  */
module InboundDelivery {
  import opened Bytes
  import opened Codec
  import opened ParserMachine
  import opened Segments
  import opened InboundStreams
  import opened StreamSenderObjects
  import opened StreamParsers

  // ---- What an emitter has emitted ------------------------------------------------------------

  function MessagesOf(events: seq<Event>): seq<MidiMessage> {
    if events == [] then []
    else (if events[0].MessageEvent? then [events[0].message] else []) + MessagesOf(events[1..])
  }

  function SysexOf(events: seq<Event>): seq<SysEx> {
    if events == [] then []
    else (if events[0].SysexEvent? then [events[0].sysex] else []) + SysexOf(events[1..])
  }

  function ErrorsOf(events: seq<Event>): seq<CodecError> {
    if events == [] then []
    else (if events[0].ErrorEvent? then [events[0].error] else []) + ErrorsOf(events[1..])
  }

  /** The codec errors among the items of an error stream; the others are overflow reports and lifecycle notices. */
  function CodecErrors(items: seq<Timed<StreamError>>): seq<CodecError> {
    if items == [] then []
    else
      var last := items[|items| - 1].payload;
      CodecErrors(items[..|items| - 1]) + if last.Codec? then [last.error] else []
  }

  function Payloads<T>(items: seq<Timed<T>>): seq<T> {
    seq(|items|, i requires 0 <= i < |items| => items[i].payload)
  }

  /** The decoded event a step emits, if it emits one. */
  function EventOf(a: Action): seq<Event> {
    match a
    case EmitMessage(_, m, _) => [MessageEvent(m.payload)]
    case EmitSysex(_, x, _) => [SysexEvent(x.payload)]
    case EmitError(_, e) => if e.payload.Codec? then [ErrorEvent(e.payload.error)] else []
    case _ => []
  }

  /** The decoded events emitted in a run, in order, whatever happened to them. */
  function Emission(capacity: nat, s: Streams, actions: seq<Action>): seq<Event>
    decreases actions
  {
    if actions == [] then []
    else if Enabled(s, actions[0]) then
      EventOf(actions[0]) + Emission(capacity, Apply(capacity, s, actions[0]), actions[1..])
    else Emission(capacity, s, actions[1..])
  }

  lemma PayloadsSnoc<T>(items: seq<Timed<T>>, item: Timed<T>)
    ensures Payloads(items + [item]) == Payloads(items) + [item.payload]
  {
  }

  lemma {:induction false} MessagesConcat(xs: seq<Event>, ys: seq<Event>)
    ensures MessagesOf(xs + ys) == MessagesOf(xs) + MessagesOf(ys)
    ensures SysexOf(xs + ys) == SysexOf(xs) + SysexOf(ys)
  {
    if xs == [] {
      assert xs + ys == ys;
    } else {
      assert (xs + ys)[1..] == xs[1..] + ys;
      MessagesConcat(xs[1..], ys);
    }
  }

  lemma {:induction false} ErrorsConcat(xs: seq<Event>, ys: seq<Event>)
    ensures ErrorsOf(xs + ys) == ErrorsOf(xs) + ErrorsOf(ys)
  {
    if xs == [] {
      assert xs + ys == ys;
    } else {
      assert (xs + ys)[1..] == xs[1..] + ys;
      ErrorsConcat(xs[1..], ys);
    }
  }

  lemma StepLogged(capacity: nat, s: Streams, a: Action)
    requires Enabled(s, a)
    ensures var s' := Apply(capacity, s, a);
            && Payloads(s'.emittedMessages) == Payloads(s.emittedMessages) + MessagesOf(EventOf(a))
            && Payloads(s'.emittedSysex) == Payloads(s.emittedSysex) + SysexOf(EventOf(a))
  {
    hide TrySend;
    match a {
      case EmitMessage(_, m, _) => PayloadsSnoc(s.emittedMessages, m);
      case EmitSysex(_, x, _) => PayloadsSnoc(s.emittedSysex, x);
      case _ =>
    }
  }

  /** The logs of a run record its emission. */
  lemma {:induction false} EmissionLogged(capacity: nat, s: Streams, actions: seq<Action>)
    ensures var s', emission := Execute(capacity, s, actions), Emission(capacity, s, actions);
            && Payloads(s'.emittedMessages) == Payloads(s.emittedMessages) + MessagesOf(emission)
            && Payloads(s'.emittedSysex) == Payloads(s.emittedSysex) + SysexOf(emission)
    decreases actions
  {
    hide Apply, Enabled, EventOf, Payloads;
    if actions == [] {
    } else if Enabled(s, actions[0]) {
      var s1 := Apply(capacity, s, actions[0]);
      StepLogged(capacity, s, actions[0]);
      EmissionLogged(capacity, s1, actions[1..]);
      MessagesConcat(EventOf(actions[0]), Emission(capacity, s1, actions[1..]));
    } else {
      EmissionLogged(capacity, s, actions[1..]);
    }
  }

  lemma CodecErrorsSnoc(items: seq<Timed<StreamError>>, item: Timed<StreamError>)
    ensures CodecErrors(items + [item])
            == CodecErrors(items) + if item.payload.Codec? then [item.payload.error] else []
  {
    assert (items + [item])[..|items|] == items;
  }

  lemma StepErrorsLogged(capacity: nat, s: Streams, a: Action)
    requires Enabled(s, a) && (a.OtherError? ==> !a.timedError.payload.Codec?)
    ensures CodecErrors(Apply(capacity, s, a).offeredErrors) == CodecErrors(s.offeredErrors) + ErrorsOf(EventOf(a))
  {
    hide TrySend, CodecErrors;
    match a {
      case EmitError(_, e) => CodecErrorsSnoc(s.offeredErrors, e);
      case OtherError(e) => CodecErrorsSnoc(s.offeredErrors, e);
      case TryReport(i, timestamp, _) =>
        CodecErrorsSnoc(s.offeredErrors, Timed(timestamp, InboundOverflow(s.emitters[i].n)));
      case _ =>
    }
  }

  /** Where only the emitters send codec errors, those offered are those emitted. */
  lemma {:induction false} ErrorsLogged(capacity: nat, s: Streams, actions: seq<Action>)
    requires forall a <- actions :: a.OtherError? ==> !a.timedError.payload.Codec?
    ensures CodecErrors(Execute(capacity, s, actions).offeredErrors)
            == CodecErrors(s.offeredErrors) + ErrorsOf(Emission(capacity, s, actions))
    decreases actions
  {
    hide Apply, Enabled, EventOf, CodecErrors;
    if actions == [] {
    } else if Enabled(s, actions[0]) {
      var s1 := Apply(capacity, s, actions[0]);
      StepErrorsLogged(capacity, s, actions[0]);
      ErrorsLogged(capacity, s1, actions[1..]);
      ErrorsConcat(EventOf(actions[0]), Emission(capacity, s1, actions[1..]));
    } else {
      ErrorsLogged(capacity, s, actions[1..]);
    }
  }

  lemma {:induction false} SubsequenceErrors(xs: seq<Timed<StreamError>>, ys: seq<Timed<StreamError>>)
    requires Subsequence(xs, ys)
    ensures Subsequence(CodecErrors(xs), CodecErrors(ys))
    decreases |ys|
  {
    if xs == [] {
    } else {
      var n, k := |xs| - 1, |ys| - 1;
      if Subsequence(xs, ys[..k]) {
        SubsequenceErrors(xs, ys[..k]);
        SkipOne(CodecErrors(xs), CodecErrors(ys[..k]), ys[k].payload);
      } else {
        SubsequenceErrors(xs[..n], ys[..k]);
        SkipOne(CodecErrors(xs[..n]), CodecErrors(ys[..k]), ys[k].payload);
      }
    }
  }

  lemma SkipOne(xs: seq<CodecError>, ys: seq<CodecError>, e: StreamError)
    requires Subsequence(xs, ys)
    ensures var more := if e.Codec? then [e.error] else [];
            Subsequence(xs, ys + more) && Subsequence(xs + more, ys + more)
  {
    if e.Codec? {
      SubsequenceGrows(xs, ys, e.error);
    } else {
      assert xs + [] == xs && ys + [] == ys;
    }
  }

  lemma {:induction false} SubsequencePayloads<T>(xs: seq<Timed<T>>, ys: seq<Timed<T>>)
    requires Subsequence(xs, ys)
    ensures Subsequence(Payloads(xs), Payloads(ys))
    decreases |ys|
  {
    if xs == [] {
      assert Payloads(xs) == [];
    } else {
      var n, k := |xs| - 1, |ys| - 1;
      assert Payloads(xs)[..n] == Payloads(xs[..n]);
      assert Payloads(ys)[..k] == Payloads(ys[..k]);
      if Subsequence(xs, ys[..k]) {
        SubsequencePayloads(xs, ys[..k]);
      } else {
        SubsequencePayloads(xs[..n], ys[..k]);
      }
    }
  }

  /**
    Delivery: bytes pushed in any chunks into a fresh parser, every event emitted by one emitter, everything else
    interleaved at will. The receivers hold an in-order part of the messages and SysEx the bytes mean, and with live
    receivers the number missing is what is counted as dropped, what the accepted reports say, and the unsettled item.
    Where nobody else sends codec errors, those received are an in-order part of the errors the bytes mean, and if the
    error queue refuses nothing, it accepts every one of them.
    */
  lemma DeliveredInOrder(capacity: nat, chunks: seq<seq<Byte>>, actions: seq<Action>)
    requires Emission(capacity, InboundStreams.Fresh(1), actions) == RunChunks(Idle, chunks).1
    ensures var s, meaning := Execute(capacity, InboundStreams.Fresh(1), actions), Meaning(Flatten(chunks));
            && Subsequence(Payloads(s.message.received), MessagesOf(meaning))
            && Subsequence(Payloads(s.sysex.received), SysexOf(meaning))
            && (s.message.open && s.sysex.open ==>
                  |MessagesOf(meaning)| + |SysexOf(meaning)|
                  - (|s.message.received| + |s.message.queue| + |s.sysex.received| + |s.sysex.queue|)
                  == s.dropped + Reported(s.error.accepted) - Unsettled(s.emitters))
            && ((forall a <- actions :: a.OtherError? ==> !a.timedError.payload.Codec?) ==>
                  && Subsequence(CodecErrors(s.error.received), ErrorsOf(meaning))
                  && (NeverRefused(capacity, InboundStreams.Fresh(1), actions) ==>
                        CodecErrors(s.error.accepted) == ErrorsOf(meaning)))
  {
    hide Execute, Emission, Meaning, MessagesOf, SysexOf, Subsequence, Reported, Unsettled, RunChunks, Run;
    hide ErrorsOf, CodecErrors, NeverRefused;
    var start := InboundStreams.Fresh(1);
    var s, meaning := Execute(capacity, start, actions), Meaning(Flatten(chunks));
    ChunkingIrrelevant(Idle, chunks);
    ParserRefinesSegments(Flatten(chunks));
    EmissionLogged(capacity, start, actions);
    assert Payloads(s.emittedMessages) == [] + MessagesOf(meaning);
    assert Payloads(s.emittedSysex) == [] + SysexOf(meaning);
    OverflowAccounting(capacity, 1, actions);
    SubsequencePayloads(s.message.received, s.emittedMessages);
    SubsequencePayloads(s.sysex.received, s.emittedSysex);
    assert Payloads(s.emittedMessages) == MessagesOf(meaning);
    assert Payloads(s.emittedSysex) == SysexOf(meaning);
    assert Subsequence(Payloads(s.message.received), MessagesOf(meaning));
    assert Subsequence(Payloads(s.sysex.received), SysexOf(meaning));
    assert Emitted(s) == |MessagesOf(meaning)| + |SysexOf(meaning)|;
    if forall a <- actions :: a.OtherError? ==> !a.timedError.payload.Codec? {
      ErrorsDelivered(capacity, actions, meaning);
    }
  }

  lemma ErrorsDelivered(capacity: nat, actions: seq<Action>, meaning: seq<Event>)
    requires Emission(capacity, InboundStreams.Fresh(1), actions) == meaning
    requires forall a <- actions :: a.OtherError? ==> !a.timedError.payload.Codec?
    ensures var s := Execute(capacity, InboundStreams.Fresh(1), actions);
            && Subsequence(CodecErrors(s.error.received), ErrorsOf(meaning))
            && (NeverRefused(capacity, InboundStreams.Fresh(1), actions) ==>
                  CodecErrors(s.error.accepted) == ErrorsOf(meaning))
  {
    hide Execute, Emission, Subsequence, Reported, Unsettled, ErrorsOf, NeverRefused;
    var start := InboundStreams.Fresh(1);
    var s := Execute(capacity, start, actions);
    ErrorsLogged(capacity, start, actions);
    assert CodecErrors(s.offeredErrors) == ErrorsOf(meaning);
    OverflowAccounting(capacity, 1, actions);
    SubsequenceErrors(s.error.received, s.offeredErrors);
    if NeverRefused(capacity, start, actions) {
      AllAccepted(capacity, start, actions);
    }
  }

  // ---- The backend's handler ------------------------------------------------------------------

  /** Which locks could not be taken at once, for each event emitted. */
  type Contention = nat -> (bool, bool)

  /** The steps of emitting a list of events, call after call. */
  function EmitAll(timestamp: int, events: seq<Event>, contention: Contention): seq<Action> {
    if events == [] then []
    else
      var n := |events| - 1;
      EmitAll(timestamp, events[..n], contention)
      + EmitActions(timestamp, events[n], contention(n).0, contention(n).1)
  }

  lemma {:induction false} EmissionConcat(capacity: nat, s: Streams, p: seq<Action>, q: seq<Action>)
    ensures Emission(capacity, s, p + q)
            == Emission(capacity, s, p) + Emission(capacity, Execute(capacity, s, p), q)
    decreases p
  {
    hide Apply, Enabled, EventOf;
    if p == [] {
      assert p + q == q;
    } else {
      assert (p + q)[1..] == p[1..] + q;
      if Enabled(s, p[0]) {
        EmissionConcat(capacity, Apply(capacity, s, p[0]), p[1..], q);
      } else {
        EmissionConcat(capacity, s, p[1..], q);
      }
    }
  }

  lemma {:induction false} NoEmission(capacity: nat, s: Streams, actions: seq<Action>)
    requires forall a <- actions :: EventOf(a) == []
    ensures Emission(capacity, s, actions) == []
    decreases actions
  {
    if actions == [] {
    } else {
      NoEmission(capacity, if Enabled(s, actions[0]) then Apply(capacity, s, actions[0]) else s, actions[1..]);
    }
  }

  /** Emitting one event from a ready emitter emits that event. */
  lemma EmissionOfOne(s: Streams, timestamp: int, event: Event, contended: bool, errorContended: bool)
    requires s.emitters == [Ready]
    ensures Emission(INBOUND_CHANNEL_CAPACITY, s, EmitActions(timestamp, event, contended, errorContended)) == [event]
  {
    hide TrySend;
    var actions := EmitActions(timestamp, event, contended, errorContended);
    assert actions == [actions[0]] + actions[1..];
    assert Enabled(s, actions[0]) && EventOf(actions[0]) == [event];
    NoEmission(INBOUND_CHANNEL_CAPACITY, Apply(INBOUND_CHANNEL_CAPACITY, s, actions[0]), actions[1..]);
  }

  /** Pushes received bytes into the connection's parser and emits every event it decodes. */
  method HandleSysexData(data: seq<Byte>, parser: StreamParser, senders: StreamSenders, timestamp: int,
                         contention: Contention)
    requires parser.Valid() && senders.Valid()
    modifies parser, senders
    ensures parser.Valid() && senders.Valid()
    ensures var (m, events) := Run(old(parser.Situation()), data);
            var actions := EmitAll(timestamp, events, contention);
            && parser.Situation() == m
            && senders.State(Ready) == Execute(INBOUND_CHANNEL_CAPACITY, old(senders.State(Ready)), actions)
            && Emission(INBOUND_CHANNEL_CAPACITY, old(senders.State(Ready)), actions) == events
  {
    hide Execute, Run, Step, Emission, EmitActions, Reachable, Abstract, Concrete, Accounted, Solo;
    ghost var before := senders.State(Ready);
    // The closure the source passes to push does nothing but emit on the senders, so its calls are made afterwards.
    var sink := new EventSink();
    parser.Push(data, sink);
    var events := sink.events;
    assert events == Run(old(parser.Situation()), data).1;
    Nothing(before);
    var i := 0;
    while i < |events|
      invariant 0 <= i <= |events|
      invariant senders.Valid() && parser.Valid() && parser.Situation() == Run(old(parser.Situation()), data).0
      invariant senders.State(Ready)
                == Execute(INBOUND_CHANNEL_CAPACITY, before, EmitAll(timestamp, events[..i], contention))
      invariant Emission(INBOUND_CHANNEL_CAPACITY, before, EmitAll(timestamp, events[..i], contention)) == events[..i]
    {
      ghost var soFar := EmitAll(timestamp, events[..i], contention);
      ghost var more := EmitActions(timestamp, events[i], contention(i).0, contention(i).1);
      assert events[..i + 1][..i] == events[..i];
      ExecuteConcat(INBOUND_CHANNEL_CAPACITY, before, soFar, more);
      EmissionConcat(INBOUND_CHANNEL_CAPACITY, before, soFar, more);
      EmissionOfOne(senders.State(Ready), timestamp, events[i], contention(i).0, contention(i).1);
      senders.Emit(timestamp, events[i], contention(i).0, contention(i).1);
      assert events[..i + 1] == events[..i] + [events[i]];
      i := i + 1;
    }
    assert events[..i] == events;
  }

  lemma Nothing(s: Streams)
    ensures Execute(INBOUND_CHANNEL_CAPACITY, s, []) == s && Emission(INBOUND_CHANNEL_CAPACITY, s, []) == []
  {
  }
}
