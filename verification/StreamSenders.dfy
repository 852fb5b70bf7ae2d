/** The sending half of the inbound streams as an object, each call proved to be a sequence of protocol steps. */
module StreamSenderObjects {
  import opened Codec
  import opened ParserMachine
  import opened InboundStreams

  const INBOUND_CHANNEL_CAPACITY: nat := 1024

  /** The steps of one report: each is skipped when the one before left nothing to do. */
  function ReportActions(timestamp: int, contended: bool): seq<Action> {
    [LoadDropped(0), TryReport(0, timestamp, contended), Subtract(0)]
  }

  /** The step that sends a message or a SysEx. */
  function SendOf(timestamp: int, event: Event, contended: bool): Action
    requires !event.ErrorEvent?
  {
    match event
    case MessageEvent(msg) => EmitMessage(0, Timed(timestamp, msg), contended)
    case SysexEvent(body) => EmitSysex(0, Timed(timestamp, body), contended)
  }

  /** The steps of a counted send: the item, its count if refused, its report if sent. */
  function SendActions(send: Action, timestamp: int, errorContended: bool): seq<Action> {
    [send, CountDrop(0)] + ReportActions(timestamp, errorContended)
  }

  /** The steps of emitting one decoded event, run without interruption. */
  function EmitActions(timestamp: int, event: Event, contended: bool, errorContended: bool): seq<Action> {
    if event.ErrorEvent? then [EmitError(0, Timed(timestamp, Codec(event.error)))]
    else SendActions(SendOf(timestamp, event, contended), timestamp, errorContended)
  }

  lemma ExecuteThree(capacity: nat, s: Streams, a: Action, b: Action, c: Action)
    ensures Execute(capacity, s, [a, b, c])
            == Execute(capacity, Execute(capacity, Execute(capacity, s, [a]), [b]), [c])
  {
    assert [a, b, c] == [a] + ([b] + [c]);
    ExecuteConcat(capacity, s, [a], [b] + [c]);
    ExecuteConcat(capacity, Execute(capacity, s, [a]), [b], [c]);
  }

  /** A counted send, taken apart. */
  lemma ExecuteSend(capacity: nat, s: Streams, send: Action, timestamp: int, errorContended: bool)
    ensures Execute(capacity, s, SendActions(send, timestamp, errorContended))
            == Execute(capacity, Execute(capacity, Execute(capacity, s, [send]), [CountDrop(0)]),
                       ReportActions(timestamp, errorContended))
  {
    ExecuteConcat(capacity, s, [send, CountDrop(0)], ReportActions(timestamp, errorContended));
    assert [send, CountDrop(0)] == [send] + [CountDrop(0)];
    ExecuteConcat(capacity, s, [send], [CountDrop(0)]);
  }

  lemma ExecuteOne(capacity: nat, s: Streams, a: Action)
    ensures Execute(capacity, s, [a]) == if Enabled(s, a) then Apply(capacity, s, a) else s
  {
    assert [a][1..] == [];
  }

  /** A queue that takes one more item. */
  predicate Free<T>(ch: BoundedQueue<T>) {
    ch.open && |ch.queue| < INBOUND_CHANNEL_CAPACITY
  }

  /**
    What emitting one event does. An error is queued if there is room, and nothing else happens. A message or SysEx is
    queued if its lock is free, its receiver there and the queue not full; then everything dropped so far is reported,
    if the report goes through. It is counted as dropped if the lock is taken or the queue full, and not otherwise.
    */
  ghost predicate Delivers(s: Streams, s': Streams, timestamp: int, event: Event, contended: bool,
                           errorContended: bool)
  {
    && s'.emitters == [Ready]
    && s'.message.open == s.message.open && s'.sysex.open == s.sysex.open && s'.error.open == s.error.open
    && if event.ErrorEvent? then
         && s'.error.queue == s.error.queue + (if Free(s.error) then [Timed(timestamp, Codec(event.error))] else [])
         && s'.message == s.message && s'.sysex == s.sysex && s'.dropped == s.dropped
       else
         var listens := if event.MessageEvent? then s.message.open else s.sysex.open;
         var goes := !contended && if event.MessageEvent? then Free(s.message) else Free(s.sysex);
         var reports := goes && s.dropped > 0 && !errorContended && Free(s.error);
         && s'.message.queue
            == s.message.queue + (if goes && event.MessageEvent? then [Timed(timestamp, event.message)] else [])
         && s'.sysex.queue
            == s.sysex.queue + (if goes && event.SysexEvent? then [Timed(timestamp, event.sysex)] else [])
         && s'.error.queue
            == s.error.queue + (if reports then [Timed(timestamp, InboundOverflow(s.dropped))] else [])
         && s'.dropped == if reports then 0
                          else if contended || (listens && !goes) then s.dropped + 1
                          else s.dropped
  }

  class StreamSenders {
    var message: BoundedQueue<Timed<MidiMessage>>
    var sysex: BoundedQueue<Timed<SysEx>>
    var error: BoundedQueue<Timed<StreamError>>
    var dropped: int
    ghost var emittedMessages: seq<Timed<MidiMessage>>
    ghost var emittedSysex: seq<Timed<SysEx>>
    ghost var offeredErrors: seq<Timed<StreamError>>
    ghost var lost: nat

    ghost function State(p: Point): Streams
      reads this
    {
      Streams(message, sysex, error, dropped, [p], emittedMessages, emittedSysex, offeredErrors, lost)
    }

    ghost predicate Valid()
      reads this
    {
      Accounted(INBOUND_CHANNEL_CAPACITY, State(Ready)) && Solo(State(Ready))
    }

    constructor ()
      ensures Valid() && State(Ready) == InboundStreams.Fresh(1)
    {
      message := EmptyQueue();
      sysex := EmptyQueue();
      error := EmptyQueue();
      dropped := 0;
      emittedMessages := [];
      emittedSysex := [];
      offeredErrors := [];
      lost := 0;
      new;
      assert InboundStreams.Fresh(1).emitters == [Ready];
    }

    method ReportOverflow(timestamp: int, contended: bool)
      modifies this`error, this`dropped, this`offeredErrors
      ensures State(Ready)
              == Execute(INBOUND_CHANNEL_CAPACITY, old(State(Reporting)), ReportActions(timestamp, contended))
    {
      ghost var s := State(Reporting);
      ExecuteThree(INBOUND_CHANNEL_CAPACITY, s, LoadDropped(0), TryReport(0, timestamp, contended), Subtract(0));
      ghost var s1 := Execute(INBOUND_CHANNEL_CAPACITY, s, [LoadDropped(0)]);
      ghost var s2 := Execute(INBOUND_CHANNEL_CAPACITY, s1, [TryReport(0, timestamp, contended)]);
      ExecuteOne(INBOUND_CHANNEL_CAPACITY, s, LoadDropped(0));
      ExecuteOne(INBOUND_CHANNEL_CAPACITY, s1, TryReport(0, timestamp, contended));
      ExecuteOne(INBOUND_CHANNEL_CAPACITY, s2, Subtract(0));
      var n := dropped;
      if n > 0 {
        if !contended {
          var (ch, result) := TrySend(error, INBOUND_CHANNEL_CAPACITY, Timed(timestamp, InboundOverflow(n)));
          error := ch;
          offeredErrors := offeredErrors + [Timed(timestamp, InboundOverflow(n))];
          if result.Sent? {
            dropped := dropped - n;
          }
        }
      }
    }

    /** Emits one decoded event; `contended` and `errorContended` say which locks could not be taken at once. */
    method Emit(timestamp: int, event: Event, contended: bool, errorContended: bool)
      requires Valid()
      modifies this
      ensures Valid()
      ensures State(Ready)
              == Execute(INBOUND_CHANNEL_CAPACITY, old(State(Ready)),
                         EmitActions(timestamp, event, contended, errorContended))
      ensures Delivers(old(State(Ready)), State(Ready), timestamp, event, contended, errorContended)
    {
      assert dropped >= 0;
      hide Accounted, Solo, Delivers;
      EmitDelivers(State(Ready), timestamp, event, contended, errorContended);
      RunAccounted(INBOUND_CHANNEL_CAPACITY, State(Ready), EmitActions(timestamp, event, contended, errorContended));
      RunSolo(INBOUND_CHANNEL_CAPACITY, State(Ready), EmitActions(timestamp, event, contended, errorContended));
      match event {
        case MessageEvent(msg) => SendMessage(timestamp, msg, contended, errorContended);
        case SysexEvent(body) => SendSysex(timestamp, body, contended, errorContended);
        case ErrorEvent(e) =>
          ExecuteOne(INBOUND_CHANNEL_CAPACITY, State(Ready), EmitError(0, Timed(timestamp, Codec(e))));
          error := TrySend(error, INBOUND_CHANNEL_CAPACITY, Timed(timestamp, Codec(e))).0;
          offeredErrors := offeredErrors + [Timed(timestamp, Codec(e))];
      }
    }

    method SendMessage(timestamp: int, msg: MidiMessage, contended: bool, errorContended: bool)
      modifies this
      ensures State(Ready) == Execute(INBOUND_CHANNEL_CAPACITY, old(State(Ready)),
                                      EmitActions(timestamp, MessageEvent(msg), contended, errorContended))
    {
      ghost var s, a := State(Ready), EmitMessage(0, Timed(timestamp, msg), contended);
      ghost var s1 := Execute(INBOUND_CHANNEL_CAPACITY, s, [a]);
      ExecuteSend(INBOUND_CHANNEL_CAPACITY, s, a, timestamp, errorContended);
      ExecuteOne(INBOUND_CHANNEL_CAPACITY, s, a);
      ExecuteOne(INBOUND_CHANNEL_CAPACITY, s1, CountDrop(0));
      assert [Ready][0 := Reporting] == [Reporting] && [Ready][0 := Refused] == [Refused];
      assert [Refused][0 := Ready] == [Ready];
      emittedMessages := emittedMessages + [Timed(timestamp, msg)];
      if contended {
        dropped := dropped + 1;
      } else {
        var (ch, result) := TrySend(message, INBOUND_CHANNEL_CAPACITY, Timed(timestamp, msg));
        message := ch;
        match result {
          case Sent =>
            assert State(Reporting) == Execute(INBOUND_CHANNEL_CAPACITY, s1, [CountDrop(0)]);
            ReportOverflow(timestamp, errorContended);
            return;
          case Full => dropped := dropped + 1;
          case Disconnected => lost := lost + 1;
        }
      }
      NothingToReport(State(Ready), timestamp, errorContended);
    }

    method SendSysex(timestamp: int, body: SysEx, contended: bool, errorContended: bool)
      modifies this
      ensures State(Ready) == Execute(INBOUND_CHANNEL_CAPACITY, old(State(Ready)),
                                      EmitActions(timestamp, SysexEvent(body), contended, errorContended))
    {
      ghost var s, a := State(Ready), EmitSysex(0, Timed(timestamp, body), contended);
      ghost var s1 := Execute(INBOUND_CHANNEL_CAPACITY, s, [a]);
      ExecuteSend(INBOUND_CHANNEL_CAPACITY, s, a, timestamp, errorContended);
      ExecuteOne(INBOUND_CHANNEL_CAPACITY, s, a);
      ExecuteOne(INBOUND_CHANNEL_CAPACITY, s1, CountDrop(0));
      assert [Ready][0 := Reporting] == [Reporting] && [Ready][0 := Refused] == [Refused];
      assert [Refused][0 := Ready] == [Ready];
      emittedSysex := emittedSysex + [Timed(timestamp, body)];
      if contended {
        dropped := dropped + 1;
      } else {
        var (ch, result) := TrySend(sysex, INBOUND_CHANNEL_CAPACITY, Timed(timestamp, body));
        sysex := ch;
        match result {
          case Sent =>
            assert State(Reporting) == Execute(INBOUND_CHANNEL_CAPACITY, s1, [CountDrop(0)]);
            ReportOverflow(timestamp, errorContended);
            return;
          case Full => dropped := dropped + 1;
          case Disconnected => lost := lost + 1;
        }
      }
      NothingToReport(State(Ready), timestamp, errorContended);
    }

    /** The backend's notice that the port is gone; it takes a slot in the error queue if there is one. */
    method LifecycleError(timestamp: int, code: int)
      requires Valid()
      modifies this`error, this`offeredErrors
      ensures Valid()
      ensures error.queue == old(error.queue) + if old(Free(error)) then [Timed(timestamp, Lifecycle(code))] else []
      ensures error.open == old(error.open) && error.received == old(error.received)
      ensures State(Ready)
              == Execute(INBOUND_CHANNEL_CAPACITY, old(State(Ready)), [OtherError(Timed(timestamp, Lifecycle(code)))])
    {
      hide Accounted, Solo;
      RunAccounted(INBOUND_CHANNEL_CAPACITY, State(Ready), [OtherError(Timed(timestamp, Lifecycle(code)))]);
      RunSolo(INBOUND_CHANNEL_CAPACITY, State(Ready), [OtherError(Timed(timestamp, Lifecycle(code)))]);
      ExecuteOne(INBOUND_CHANNEL_CAPACITY, State(Ready), OtherError(Timed(timestamp, Lifecycle(code))));
      error := TrySend(error, INBOUND_CHANNEL_CAPACITY, Timed(timestamp, Lifecycle(code))).0;
      offeredErrors := offeredErrors + [Timed(timestamp, Lifecycle(code))];
    }
  }

  lemma NothingToReport(s: Streams, timestamp: int, contended: bool)
    requires s.emitters == [Ready]
    ensures Execute(INBOUND_CHANNEL_CAPACITY, s, ReportActions(timestamp, contended)) == s
  {
    ExecuteThree(INBOUND_CHANNEL_CAPACITY, s, LoadDropped(0), TryReport(0, timestamp, contended), Subtract(0));
    ExecuteOne(INBOUND_CHANNEL_CAPACITY, s, LoadDropped(0));
    ExecuteOne(INBOUND_CHANNEL_CAPACITY, s, TryReport(0, timestamp, contended));
    ExecuteOne(INBOUND_CHANNEL_CAPACITY, s, Subtract(0));
  }

  lemma ReportDelivers(s: Streams, timestamp: int, contended: bool)
    requires s.emitters == [Reporting] && s.dropped >= 0
    ensures var s' := Execute(INBOUND_CHANNEL_CAPACITY, s, ReportActions(timestamp, contended));
            var reports := s.dropped > 0 && !contended && Free(s.error);
            && s'.emitters == [Ready] && s'.message == s.message && s'.sysex == s.sysex
            && s'.error.open == s.error.open
            && s'.dropped == (if reports then 0 else s.dropped)
            && s'.error.queue
               == s.error.queue + if reports then [Timed(timestamp, InboundOverflow(s.dropped))] else []
  {
    var s1 := Execute(INBOUND_CHANNEL_CAPACITY, s, [LoadDropped(0)]);
    var s2 := Execute(INBOUND_CHANNEL_CAPACITY, s1, [TryReport(0, timestamp, contended)]);
    ExecuteThree(INBOUND_CHANNEL_CAPACITY, s, LoadDropped(0), TryReport(0, timestamp, contended), Subtract(0));
    ExecuteOne(INBOUND_CHANNEL_CAPACITY, s, LoadDropped(0));
    ExecuteOne(INBOUND_CHANNEL_CAPACITY, s1, TryReport(0, timestamp, contended));
    ExecuteOne(INBOUND_CHANNEL_CAPACITY, s2, Subtract(0));
  }

  lemma SendCounts(s: Streams, timestamp: int, event: Event, contended: bool)
    requires s.emitters == [Ready] && !event.ErrorEvent?
    ensures var a := SendOf(timestamp, event, contended);
            var s1 := Execute(INBOUND_CHANNEL_CAPACITY, s, [a]);
            var s2 := Execute(INBOUND_CHANNEL_CAPACITY, s1, [CountDrop(0)]);
            var listens := if event.MessageEvent? then s.message.open else s.sysex.open;
            var goes := !contended && if event.MessageEvent? then Free(s.message) else Free(s.sysex);
            && s2.emitters == [if goes then Reporting else Ready]
            && s2.message.open == s.message.open && s2.sysex.open == s.sysex.open && s2.error == s.error
            && s2.message.queue
               == s.message.queue + (if goes && event.MessageEvent? then [Timed(timestamp, event.message)] else [])
            && s2.sysex.queue
               == s.sysex.queue + (if goes && event.SysexEvent? then [Timed(timestamp, event.sysex)] else [])
            && s2.dropped == s.dropped + if contended || (listens && !goes) then 1 else 0
  {
    hide Execute;
    var a := SendOf(timestamp, event, contended);
    ExecuteOne(INBOUND_CHANNEL_CAPACITY, s, a);
    ExecuteOne(INBOUND_CHANNEL_CAPACITY, Apply(INBOUND_CHANNEL_CAPACITY, s, a), CountDrop(0));
  }

  lemma SendDelivers(s: Streams, timestamp: int, event: Event, contended: bool, errorContended: bool)
    requires s.emitters == [Ready] && s.dropped >= 0 && !event.ErrorEvent?
    ensures Delivers(s, Execute(INBOUND_CHANNEL_CAPACITY, s, EmitActions(timestamp, event, contended, errorContended)),
                     timestamp, event, contended, errorContended)
  {
    hide Execute, Free, SendActions, ReportActions;
    var a := SendOf(timestamp, event, contended);
    var s1 := Execute(INBOUND_CHANNEL_CAPACITY, s, [a]);
    var s2 := Execute(INBOUND_CHANNEL_CAPACITY, s1, [CountDrop(0)]);
    ExecuteSend(INBOUND_CHANNEL_CAPACITY, s, a, timestamp, errorContended);
    SendCounts(s, timestamp, event, contended);
    if s2.emitters == [Reporting] {
      ReportDelivers(s2, timestamp, errorContended);
    } else {
      NothingToReport(s2, timestamp, errorContended);
    }
  }

  /** Every emission, on every kind of queue, does what is said of it. */
  lemma EmitDelivers(s: Streams, timestamp: int, event: Event, contended: bool, errorContended: bool)
    requires s.emitters == [Ready] && s.dropped >= 0
    ensures Delivers(s, Execute(INBOUND_CHANNEL_CAPACITY, s, EmitActions(timestamp, event, contended, errorContended)),
                     timestamp, event, contended, errorContended)
  {
    if event.ErrorEvent? {
      ExecuteOne(INBOUND_CHANNEL_CAPACITY, s, EmitError(0, Timed(timestamp, Codec(event.error))));
    } else {
      SendDelivers(s, timestamp, event, contended, errorContended);
    }
  }

  /**
    Drops are reported as soon as they can be: a send that goes through, with the error channel free and not full,
    leaves nothing unreported, and what it reports is exactly what had been dropped.
    */
  lemma SendSettles(s: Streams, timestamp: int, event: Event)
    requires s.emitters == [Ready] && s.dropped >= 0 && !event.ErrorEvent?
    requires event.MessageEvent? ==> s.message.open && |s.message.queue| < INBOUND_CHANNEL_CAPACITY
    requires event.SysexEvent? ==> s.sysex.open && |s.sysex.queue| < INBOUND_CHANNEL_CAPACITY
    requires s.error.open && |s.error.queue| < INBOUND_CHANNEL_CAPACITY
    ensures var s' := Execute(INBOUND_CHANNEL_CAPACITY, s, EmitActions(timestamp, event, false, false));
            && s'.dropped == 0 && s'.emitters == [Ready]
            && s'.message.queue
               == s.message.queue + (if event.MessageEvent? then [Timed(timestamp, event.message)] else [])
            && s'.sysex.queue == s.sysex.queue + (if event.SysexEvent? then [Timed(timestamp, event.sysex)] else [])
            && s'.error.queue == s.error.queue
                 + if s.dropped > 0 then [Timed(timestamp, InboundOverflow(s.dropped))] else []
  {
    EmitDelivers(s, timestamp, event, false, false);
  }
}
