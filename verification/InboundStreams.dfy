/**
  The inbound streams of a connection: three bounded queues, a counter of dropped items, and overflow reports that
  are sent late. Emitters, receivers and other senders of errors interleave step by step; between two steps of an
  emitter anything may happen.
  */
module InboundStreams {
  import opened Codec

  datatype Timed<+T> = Timed(timestamp: int, payload: T)

  datatype StreamError =
    | Codec(error: CodecError)
    | InboundOverflow(dropped: int)
    | Lifecycle(code: int)

  // ---- Bounded queues -------------------------------------------------------------------------

  /** A bounded queue with the history of what it accepted and what its receiver has taken. */
  datatype BoundedQueue<T> = BoundedQueue(queue: seq<T>, open: bool, accepted: seq<T>, received: seq<T>)

  datatype SendResult = Sent | Full | Disconnected

  function TrySend<T>(ch: BoundedQueue<T>, capacity: nat, item: T): (BoundedQueue<T>, SendResult) {
    if !ch.open then (ch, Disconnected)
    else if |ch.queue| >= capacity then (ch, Full)
    else (ch.(queue := ch.queue + [item], accepted := ch.accepted + [item]), Sent)
  }

  function Receive<T>(ch: BoundedQueue<T>): BoundedQueue<T> {
    if ch.queue == [] then ch
    else ch.(queue := ch.queue[1..], received := ch.received + [ch.queue[0]])
  }

  /** The receiver goes away, with whatever it had not taken. */
  function Close<T>(ch: BoundedQueue<T>): BoundedQueue<T> {
    ch.(queue := [], open := false)
  }

  function EmptyQueue<T>(): BoundedQueue<T> {
    BoundedQueue([], true, [], [])
  }

  /** First in, first out: what was received, then what is queued, is what was accepted. */
  ghost predicate Fifo<T>(ch: BoundedQueue<T>, capacity: nat) {
    && |ch.queue| <= capacity
    && ch.received <= ch.accepted
    && (ch.open ==> ch.received + ch.queue == ch.accepted)
    && (!ch.open ==> ch.queue == [])
  }

  /** `xs` is what remains of `ys` when some items are left out. */
  ghost predicate Subsequence<T>(xs: seq<T>, ys: seq<T>) {
    if xs == [] then true
    else if ys == [] then false
    else
      || (xs[|xs| - 1] == ys[|ys| - 1] && Subsequence(xs[..|xs| - 1], ys[..|ys| - 1]))
      || Subsequence(xs, ys[..|ys| - 1])
  }

  lemma SubsequenceGrows<T>(xs: seq<T>, ys: seq<T>, item: T)
    requires Subsequence(xs, ys)
    ensures Subsequence(xs, ys + [item]) && Subsequence(xs + [item], ys + [item])
  {
    assert (ys + [item])[..|ys|] == ys;
    assert (xs + [item])[..|xs|] == xs;
  }

  lemma {:induction false} SubsequencePrefix<T>(prefix: seq<T>, xs: seq<T>, ys: seq<T>)
    requires prefix <= xs && Subsequence(xs, ys)
    ensures Subsequence(prefix, ys)
    decreases |ys|
  {
    if prefix == [] || prefix == xs {
      assert prefix == xs[..|prefix|];
    } else if Subsequence(xs, ys[..|ys| - 1]) {
      SubsequencePrefix(prefix, xs, ys[..|ys| - 1]);
    } else {
      SubsequencePrefix(prefix, xs[..|xs| - 1], ys[..|ys| - 1]);
    }
  }

  // ---- The protocol ---------------------------------------------------------------------------

  /** Where an emitter is inside one call: between steps the other parties may act. */
  datatype Point =
    | Ready
    | Refused // its item was refused, about to count it as dropped
    | Reporting // sent its item, about to load the counter
    | Loaded(n: int) // read the counter, about to try the error channel
    | Accepted(n: int) // its report was accepted, about to subtract

  datatype Streams = Streams(
    message: BoundedQueue<Timed<MidiMessage>>,
    sysex: BoundedQueue<Timed<SysEx>>,
    error: BoundedQueue<Timed<StreamError>>,
    dropped: int,
    emitters: seq<Point>,
    emittedMessages: seq<Timed<MidiMessage>>,
    emittedSysex: seq<Timed<SysEx>>,
    offeredErrors: seq<Timed<StreamError>>, // everything tried on the error queue
    lost: nat)

  /** `contended` says that the lock of the channel could not be taken at once. */
  datatype Action =
    | EmitMessage(i: nat, timedMessage: Timed<MidiMessage>, contended: bool)
    | EmitSysex(i: nat, timedSysex: Timed<SysEx>, contended: bool)
    | EmitError(i: nat, timedError: Timed<StreamError>)
    | CountDrop(i: nat)
    | LoadDropped(i: nat)
    | TryReport(i: nat, timestamp: int, contended: bool)
    | Subtract(i: nat)
    | OtherError(timedError: Timed<StreamError>)
    | ReceiveMessage
    | ReceiveSysex
    | ReceiveError
    | CloseMessage
    | CloseSysex
    | CloseError

  function Fresh(emitters: nat): Streams {
    Streams(EmptyQueue(), EmptyQueue(), EmptyQueue(), 0, seq(emitters, _ => Ready), [], [], [], 0)
  }

  predicate IsReport(e: StreamError) { e.InboundOverflow? }

  predicate Enabled(s: Streams, a: Action) {
    match a
    case EmitMessage(i, _, _) => i < |s.emitters| && s.emitters[i].Ready?
    case EmitSysex(i, _, _) => i < |s.emitters| && s.emitters[i].Ready?
    case EmitError(i, e) => i < |s.emitters| && s.emitters[i].Ready? && !IsReport(e.payload)
    case CountDrop(i) => i < |s.emitters| && s.emitters[i].Refused?
    case LoadDropped(i) => i < |s.emitters| && s.emitters[i].Reporting?
    case TryReport(i, _, _) => i < |s.emitters| && s.emitters[i].Loaded?
    case Subtract(i) => i < |s.emitters| && s.emitters[i].Accepted?
    case OtherError(e) => !IsReport(e.payload)
    case _ => true
  }

  /** The emitter's next point after its item met `result`. */
  function AfterSend(s: Streams, i: nat, result: SendResult): Streams
    requires i < |s.emitters|
  {
    match result
    case Sent => s.(emitters := s.emitters[i := Reporting])
    case Full => s.(emitters := s.emitters[i := Refused])
    case Disconnected => s.(lost := s.lost + 1)
  }

  /** Tries an item on the error queue. */
  function Offer(capacity: nat, s: Streams, e: Timed<StreamError>): (Streams, SendResult) {
    var (ch, result) := TrySend(s.error, capacity, e);
    (s.(error := ch, offeredErrors := s.offeredErrors + [e]), result)
  }

  /** One atomic step. The counter is unbounded here; the source's wraps at the machine word. */
  function Apply(capacity: nat, s: Streams, a: Action): Streams
    requires Enabled(s, a)
  {
    match a
    case EmitMessage(i, m, contended) =>
      var s := s.(emittedMessages := s.emittedMessages + [m]);
      if contended then s.(emitters := s.emitters[i := Refused])
      else
        var (ch, result) := TrySend(s.message, capacity, m);
        AfterSend(s.(message := ch), i, result)
    case EmitSysex(i, x, contended) =>
      var s := s.(emittedSysex := s.emittedSysex + [x]);
      if contended then s.(emitters := s.emitters[i := Refused])
      else
        var (ch, result) := TrySend(s.sysex, capacity, x);
        AfterSend(s.(sysex := ch), i, result)
    case EmitError(_, e) => Offer(capacity, s, e).0
    case CountDrop(i) => s.(dropped := s.dropped + 1, emitters := s.emitters[i := Ready])
    case LoadDropped(i) =>
      s.(emitters := s.emitters[i := if s.dropped > 0 then Loaded(s.dropped) else Ready])
    case TryReport(i, timestamp, contended) =>
      if contended then s.(emitters := s.emitters[i := Ready])
      else
        var n := s.emitters[i].n;
        var (offered, result) := Offer(capacity, s, Timed(timestamp, InboundOverflow(n)));
        offered.(emitters := s.emitters[i := if result.Sent? then Accepted(n) else Ready])
    case Subtract(i) => s.(dropped := s.dropped - s.emitters[i].n, emitters := s.emitters[i := Ready])
    case OtherError(e) => Offer(capacity, s, e).0
    case ReceiveMessage => s.(message := Receive(s.message))
    case ReceiveSysex => s.(sysex := Receive(s.sysex))
    case ReceiveError => s.(error := Receive(s.error))
    case CloseMessage => s.(message := Close(s.message))
    case CloseSysex => s.(sysex := Close(s.sysex))
    case CloseError => s.(error := Close(s.error))
  }

  /** A run takes enabled steps only; a step that is not enabled cannot happen and is skipped. */
  function Execute(capacity: nat, s: Streams, actions: seq<Action>): Streams
    decreases actions
  {
    if actions == [] then s
    else Execute(capacity, if Enabled(s, actions[0]) then Apply(capacity, s, actions[0]) else s, actions[1..])
  }

  // ---- Accounting -----------------------------------------------------------------------------

  /** The sum of all overflow reports in a history. */
  function Reported(errors: seq<Timed<StreamError>>): int {
    if errors == [] then 0
    else
      var last := errors[|errors| - 1].payload;
      Reported(errors[..|errors| - 1]) + if last.InboundOverflow? then last.dropped else 0
  }

  /** A report accepted but not yet subtracted is counted twice, a refused item not yet counted not at all. */
  function Pending(p: Point): int {
    match p
    case Accepted(n) => n
    case Refused => -1
    case _ => 0
  }

  function Unsettled(points: seq<Point>): int {
    if points == [] then 0 else Pending(points[0]) + Unsettled(points[1..])
  }

  lemma {:induction false} UnsettledUpdate(points: seq<Point>, i: nat, p: Point)
    requires i < |points|
    ensures Unsettled(points[i := p]) == Unsettled(points) - Pending(points[i]) + Pending(p)
  {
    if i == 0 {
      assert points[0 := p][1..] == points[1..];
    } else {
      assert points[i := p][1..] == points[1..][i - 1 := p];
      UnsettledUpdate(points[1..], i - 1, p);
    }
  }

  function Emitted(s: Streams): nat {
    |s.emittedMessages| + |s.emittedSysex|
  }

  /** The books balance: what holds at every step, whatever the number of emitters. */
  ghost predicate Accounted(capacity: nat, s: Streams) {
    && Fifo(s.message, capacity) && Fifo(s.sysex, capacity) && Fifo(s.error, capacity)
    && Subsequence(s.message.accepted, s.emittedMessages)
    && Subsequence(s.sysex.accepted, s.emittedSysex)
    && Subsequence(s.error.accepted, s.offeredErrors)
    && Emitted(s) + Unsettled(s.emitters)
       == |s.message.accepted| + |s.sysex.accepted| + s.dropped + Reported(s.error.accepted) + s.lost
    && (s.message.open && s.sysex.open ==> s.lost == 0)
  }

  /** What a single emitter adds: the number it is about to report is still the whole counter. */
  ghost predicate Solo(s: Streams) {
    && |s.emitters| == 1
    && 0 <= s.dropped
    && (s.emitters[0].Loaded? || s.emitters[0].Accepted? ==> s.emitters[0].n == s.dropped > 0)
  }

  lemma ReportedSnoc(errors: seq<Timed<StreamError>>, e: Timed<StreamError>)
    ensures Reported(errors + [e])
            == Reported(errors) + if e.payload.InboundOverflow? then e.payload.dropped else 0
  {
    assert (errors + [e])[..|errors|] == errors;
  }

  lemma SendKeepsFifo<T>(ch: BoundedQueue<T>, capacity: nat, item: T)
    requires Fifo(ch, capacity)
    ensures Fifo(TrySend(ch, capacity, item).0, capacity)
    ensures Fifo(Receive(ch), capacity) && Fifo(Close(ch), capacity)
    ensures Receive(ch).accepted == Close(ch).accepted == ch.accepted
    ensures !Close(ch).open && Close(ch).received == ch.received
  {
    if ch.open && |ch.queue| < capacity {
      assert ch.received + (ch.queue + [item]) == ch.accepted + [item];
    }
    if ch.queue != [] {
      assert ch.queue == [ch.queue[0]] + ch.queue[1..];
      assert ch.received + [ch.queue[0]] + ch.queue[1..] == ch.accepted;
    }
  }

  lemma MessageAccounted(capacity: nat, s: Streams, a: Action)
    requires Accounted(capacity, s) && Enabled(s, a) && a.EmitMessage?
    ensures Accounted(capacity, Apply(capacity, s, a))
  {
    hide Fifo, Subsequence, Reported, Unsettled;
    SendKeepsFifo(s.message, capacity, a.timedMessage);
    SubsequenceGrows(s.message.accepted, s.emittedMessages, a.timedMessage);
    UnsettledUpdate(s.emitters, a.i, Reporting);
    UnsettledUpdate(s.emitters, a.i, Refused);
  }

  lemma SysexAccounted(capacity: nat, s: Streams, a: Action)
    requires Accounted(capacity, s) && Enabled(s, a) && a.EmitSysex?
    ensures Accounted(capacity, Apply(capacity, s, a))
  {
    hide Fifo, Subsequence, Reported, Unsettled;
    SendKeepsFifo(s.sysex, capacity, a.timedSysex);
    SubsequenceGrows(s.sysex.accepted, s.emittedSysex, a.timedSysex);
    UnsettledUpdate(s.emitters, a.i, Reporting);
    UnsettledUpdate(s.emitters, a.i, Refused);
  }

  lemma OfferAccounted(capacity: nat, s: Streams, e: Timed<StreamError>)
    requires Fifo(s.error, capacity) && Subsequence(s.error.accepted, s.offeredErrors)
    ensures var (s', result) := Offer(capacity, s, e);
            && s' == s.(error := s'.error, offeredErrors := s'.offeredErrors)
            && Fifo(s'.error, capacity) && Subsequence(s'.error.accepted, s'.offeredErrors)
            && Reported(s'.error.accepted)
               == Reported(s.error.accepted)
                  + if result.Sent? && e.payload.InboundOverflow? then e.payload.dropped else 0
  {
    hide Fifo, Subsequence, Reported;
    SendKeepsFifo(s.error, capacity, e);
    ReportedSnoc(s.error.accepted, e);
    SubsequenceGrows(s.error.accepted, s.offeredErrors, e);
  }

  lemma ErrorAccounted(capacity: nat, s: Streams, a: Action)
    requires Accounted(capacity, s) && Enabled(s, a)
    requires a.EmitError? || a.OtherError? || a.TryReport?
    ensures Accounted(capacity, Apply(capacity, s, a))
  {
    hide Fifo, Subsequence, Reported, Unsettled, Offer;
    var e := match a
      case EmitError(_, e) => e
      case OtherError(e) => e
      case TryReport(i, timestamp, _) => Timed(timestamp, InboundOverflow(s.emitters[i].n));
    OfferAccounted(capacity, s, e);
    if a.TryReport? {
      UnsettledUpdate(s.emitters, a.i, Ready);
      UnsettledUpdate(s.emitters, a.i, Accepted(s.emitters[a.i].n));
    }
  }

  lemma StepAccounted(capacity: nat, s: Streams, a: Action)
    requires Accounted(capacity, s) && Enabled(s, a)
    ensures Accounted(capacity, Apply(capacity, s, a))
  {
    hide Subsequence, Reported, Unsettled;
    match a {
      case EmitMessage(_, _, _) => MessageAccounted(capacity, s, a);
      case EmitSysex(_, _, _) => SysexAccounted(capacity, s, a);
      case EmitError(_, _) => ErrorAccounted(capacity, s, a);
      case OtherError(_) => ErrorAccounted(capacity, s, a);
      case TryReport(_, _, _) => ErrorAccounted(capacity, s, a);
      case ReceiveMessage => SendKeepsFifo(s.message, capacity, Timed(0, Reset));
      case CloseMessage => SendKeepsFifo(s.message, capacity, Timed(0, Reset));
      case ReceiveSysex => SendKeepsFifo(s.sysex, capacity, Timed(0, [0]));
      case CloseSysex => SendKeepsFifo(s.sysex, capacity, Timed(0, [0]));
      case ReceiveError => SendKeepsFifo(s.error, capacity, Timed(0, Lifecycle(0)));
      case CloseError => SendKeepsFifo(s.error, capacity, Timed(0, Lifecycle(0)));
      case CountDrop(i) => UnsettledUpdate(s.emitters, i, Ready);
      case LoadDropped(i) =>
        UnsettledUpdate(s.emitters, i, Ready);
        UnsettledUpdate(s.emitters, i, Loaded(s.dropped));
      case Subtract(i) => UnsettledUpdate(s.emitters, i, Ready);
    }
  }

  lemma {:induction false} RunAccounted(capacity: nat, s: Streams, actions: seq<Action>)
    requires Accounted(capacity, s)
    ensures Accounted(capacity, Execute(capacity, s, actions))
    decreases actions
  {
    hide Accounted, Apply, Enabled;
    if actions == [] {
    } else if Enabled(s, actions[0]) {
      StepAccounted(capacity, s, actions[0]);
      RunAccounted(capacity, Apply(capacity, s, actions[0]), actions[1..]);
    } else {
      RunAccounted(capacity, s, actions[1..]);
    }
  }

  /** How many items wait for a receiver. */
  function Waiting(s: Streams, receiver: Action): nat {
    match receiver
    case ReceiveMessage => |s.message.queue|
    case ReceiveSysex => |s.sysex.queue|
    case ReceiveError => |s.error.queue|
    case _ => 0
  }

  /** A receiver that takes what waits gets exactly that, in order, and the other streams do not notice. */
  lemma {:induction false} ReceiversDrain(capacity: nat, s: Streams, receiver: Action)
    ensures var s' := Execute(capacity, s, seq(Waiting(s, receiver), _ => receiver));
            match receiver
            case ReceiveMessage =>
              s' == s.(message := s.message.(queue := [], received := s.message.received + s.message.queue))
            case ReceiveSysex =>
              s' == s.(sysex := s.sysex.(queue := [], received := s.sysex.received + s.sysex.queue))
            case ReceiveError =>
              s' == s.(error := s.error.(queue := [], received := s.error.received + s.error.queue))
            case _ => s' == s
    decreases Waiting(s, receiver)
  {
    var n := Waiting(s, receiver);
    if n == 0 {
      assert forall xs: seq<Action> | |xs| == 0 :: xs == [];
    } else {
      var s1 := Apply(capacity, s, receiver);
      assert seq(n, _ => receiver)[1..] == seq(n - 1, _ => receiver);
      ReceiversDrain(capacity, s1, receiver);
    }
  }

  /** At every step of a run that tries an item on the error queue, the receiver is there and the queue has room. */
  predicate NeverRefused(capacity: nat, s: Streams, actions: seq<Action>)
    decreases actions
  {
    if actions == [] then true
    else if Enabled(s, actions[0]) then
      && (actions[0].EmitError? || actions[0].OtherError? || (actions[0].TryReport? && !actions[0].contended) ==>
            s.error.open && |s.error.queue| < capacity)
      && NeverRefused(capacity, Apply(capacity, s, actions[0]), actions[1..])
    else NeverRefused(capacity, s, actions[1..])
  }

  lemma StepAccepts(capacity: nat, s: Streams, a: Action)
    requires Enabled(s, a)
    requires a.EmitError? || a.OtherError? || (a.TryReport? && !a.contended) ==>
               s.error.open && |s.error.queue| < capacity
    requires s.error.accepted == s.offeredErrors
    ensures Apply(capacity, s, a).error.accepted == Apply(capacity, s, a).offeredErrors
  {
  }

  /** A queue that never refuses accepts everything. */
  lemma {:induction false} AllAccepted(capacity: nat, s: Streams, actions: seq<Action>)
    requires NeverRefused(capacity, s, actions) && s.error.accepted == s.offeredErrors
    ensures Execute(capacity, s, actions).error.accepted == Execute(capacity, s, actions).offeredErrors
    decreases actions
  {
    hide Apply, Enabled;
    if actions == [] {
    } else if Enabled(s, actions[0]) {
      StepAccepts(capacity, s, actions[0]);
      AllAccepted(capacity, Apply(capacity, s, actions[0]), actions[1..]);
    } else {
      AllAccepted(capacity, s, actions[1..]);
    }
  }

  lemma StepSolo(capacity: nat, s: Streams, a: Action)
    requires Solo(s) && Enabled(s, a)
    ensures Solo(Apply(capacity, s, a))
  {
  }

  lemma {:induction false} RunSolo(capacity: nat, s: Streams, actions: seq<Action>)
    requires Solo(s)
    ensures Solo(Execute(capacity, s, actions))
    decreases actions
  {
    hide Solo, Apply, Enabled;
    if actions == [] {
    } else if Enabled(s, actions[0]) {
      StepSolo(capacity, s, actions[0]);
      RunSolo(capacity, Apply(capacity, s, actions[0]), actions[1..]);
    } else {
      RunSolo(capacity, s, actions[1..]);
    }
  }

  /** Nothing has been emitted, so there is nothing to account for. */
  lemma FreshAccounted(capacity: nat, emitters: nat)
    ensures Accounted(capacity, Fresh(emitters))
  {
    NothingUnsettled(Fresh(emitters).emitters);
  }

  lemma {:induction false} NothingUnsettled(points: seq<Point>)
    requires forall p <- points :: p.Ready?
    ensures Unsettled(points) == 0
  {
    if points == [] {
    } else {
      NothingUnsettled(points[1..]);
    }
  }

  /**
    Nothing disappears uncounted. With live receivers, after every step of every interleaving and with any number of
    emitters, the items emitted are those received, those queued, those counted as dropped and those reported, but
    for what the emitters have not settled: an item just refused and a report just accepted. Each stream's receiver
    has seen an in-order part of what was emitted.
    */
  lemma OverflowAccounting(capacity: nat, emitters: nat, actions: seq<Action>)
    ensures var s := Execute(capacity, Fresh(emitters), actions);
            && Subsequence(s.message.received, s.emittedMessages)
            && Subsequence(s.sysex.received, s.emittedSysex)
            && Subsequence(s.error.received, s.offeredErrors)
            && (s.message.open && s.sysex.open ==>
                  Emitted(s) + Unsettled(s.emitters)
                  == |s.message.received| + |s.message.queue| + |s.sysex.received| + |s.sysex.queue|
                     + s.dropped + Reported(s.error.accepted))
  {
    FreshAccounted(capacity, emitters);
    RunAccounted(capacity, Fresh(emitters), actions);
    var s := Execute(capacity, Fresh(emitters), actions);
    SubsequencePrefix(s.message.received, s.message.accepted, s.emittedMessages);
    SubsequencePrefix(s.sysex.received, s.sysex.accepted, s.emittedSysex);
    SubsequencePrefix(s.error.received, s.error.accepted, s.offeredErrors);
    assert s.message.open ==> |s.message.accepted| == |s.message.received + s.message.queue|;
    assert s.sysex.open ==> |s.sysex.accepted| == |s.sysex.received + s.sysex.queue|;
  }

  /**
    With one emitter the counter is never negative, and a report that is being made is the whole counter: once it is
    accepted, what remains unreported is nothing.
    */
  lemma SoloCounter(capacity: nat, actions: seq<Action>)
    ensures var s := Execute(capacity, Fresh(1), actions);
            && |s.emitters| == 1 && 0 <= s.dropped
            && (s.emitters[0].Accepted? ==> Unsettled(s.emitters) == s.dropped)
  {
    RunSolo(capacity, Fresh(1), actions);
    var s := Execute(capacity, Fresh(1), actions);
    assert s.emitters[1..] == [];
  }

  // ---- Two emitters ---------------------------------------------------------------------------

  /** One item dropped, both emitters load the counter before either subtracts, and both reports are accepted. */
  function DoubleReport(m: Timed<MidiMessage>): seq<Action> {
    [EmitMessage(0, m, true), CountDrop(0), EmitMessage(0, m, false), ReceiveMessage, EmitMessage(1, m, false),
     LoadDropped(0), LoadDropped(1), TryReport(0, 0, false), Subtract(0), ReceiveError,
     TryReport(1, 0, false), Subtract(1)]
  }

  /** What the schedule depends on. */
  predicate Stage(s: Streams, p: Point, q: Point, dropped: int, queued: nat, reports: nat) {
    && |s.emitters| >= 2 && s.emitters[0] == p && s.emitters[1] == q
    && s.dropped == dropped
    && s.message.open && |s.message.queue| == queued
    && s.error.open && |s.error.queue| == reports
  }

  lemma DoubleReportUnderflows(capacity: nat, emitters: nat, m: Timed<MidiMessage>)
    requires capacity >= 1 && emitters >= 2
    ensures Execute(capacity, Fresh(emitters), DoubleReport(m)).dropped == -1
  {
    var actions := DoubleReport(m);
    var s0 := Fresh(emitters);
    assert Stage(s0, Ready, Ready, 0, 0, 0);
    var s4 := BothSend(capacity, s0, m);
    var s8 := FirstReports(capacity, s4);
    var s11 := SecondReports(capacity, s8);
    assert actions[..5] == FirstSends(m);
    assert actions[5..9] == FirstReport();
    assert actions[9..] == SecondReport();
    assert actions == actions[..5] + (actions[5..9] + actions[9..]);
    ExecuteConcat(capacity, s0, actions[..5], actions[5..9] + actions[9..]);
    ExecuteConcat(capacity, s4, actions[5..9], actions[9..]);
  }

  function FirstSends(m: Timed<MidiMessage>): seq<Action> {
    [EmitMessage(0, m, true), CountDrop(0), EmitMessage(0, m, false), ReceiveMessage, EmitMessage(1, m, false)]
  }

  function FirstReport(): seq<Action> {
    [LoadDropped(0), LoadDropped(1), TryReport(0, 0, false), Subtract(0)]
  }

  function SecondReport(): seq<Action> {
    [ReceiveError, TryReport(1, 0, false), Subtract(1)]
  }

  lemma BothSend(capacity: nat, s: Streams, m: Timed<MidiMessage>) returns (end: Streams)
    requires capacity >= 1 && Stage(s, Ready, Ready, 0, 0, 0)
    ensures end == Execute(capacity, s, FirstSends(m)) && Stage(end, Reporting, Reporting, 1, 1, 0)
  {
    var s1 := Apply(capacity, s, EmitMessage(0, m, true));
    var s2 := Apply(capacity, s1, CountDrop(0));
    var s3 := Apply(capacity, s2, EmitMessage(0, m, false));
    var s4 := Apply(capacity, s3, ReceiveMessage);
    end := Apply(capacity, s4, EmitMessage(1, m, false));
    RunIsExecuted(capacity, [s, s1, s2, s3, s4, end], FirstSends(m));
  }

  lemma FirstReports(capacity: nat, s: Streams) returns (end: Streams)
    requires capacity >= 1 && Stage(s, Reporting, Reporting, 1, 1, 0)
    ensures end == Execute(capacity, s, FirstReport()) && Stage(end, Ready, Loaded(1), 0, 1, 1)
  {
    var s1 := Apply(capacity, s, LoadDropped(0));
    var s2 := Apply(capacity, s1, LoadDropped(1));
    var s3 := Apply(capacity, s2, TryReport(0, 0, false));
    end := Apply(capacity, s3, Subtract(0));
    RunIsExecuted(capacity, [s, s1, s2, s3, end], FirstReport());
  }

  lemma SecondReports(capacity: nat, s: Streams) returns (end: Streams)
    requires capacity >= 1 && Stage(s, Ready, Loaded(1), 0, 1, 1)
    ensures end == Execute(capacity, s, SecondReport()) && Stage(end, Ready, Ready, -1, 1, 1)
  {
    var s1 := Apply(capacity, s, ReceiveError);
    var s2 := Apply(capacity, s1, TryReport(1, 0, false));
    end := Apply(capacity, s2, Subtract(1));
    RunIsExecuted(capacity, [s, s1, s2, end], SecondReport());
  }

  /** A list of states each of which follows from the one before is what the run computes. */
  lemma {:induction false} RunIsExecuted(capacity: nat, states: seq<Streams>, actions: seq<Action>)
    requires |states| == |actions| + 1
    requires forall k | 0 <= k < |actions| ::
               Enabled(states[k], actions[k]) && states[k + 1] == Apply(capacity, states[k], actions[k])
    ensures Execute(capacity, states[0], actions) == states[|actions|]
    decreases actions
  {
    if actions == [] {
    } else {
      RunIsExecuted(capacity, states[1..], actions[1..]);
    }
  }

  lemma {:induction false} ExecuteConcat(capacity: nat, s: Streams, p: seq<Action>, q: seq<Action>)
    ensures Execute(capacity, s, p + q) == Execute(capacity, Execute(capacity, s, p), q)
    decreases p
  {
    if p == [] {
      assert p + q == q;
    } else {
      assert (p + q)[1..] == p[1..] + q;
      ExecuteConcat(capacity, if Enabled(s, p[0]) then Apply(capacity, s, p[0]) else s, p[1..], q);
    }
  }

  /** The counter can go below zero exactly when there is more than one emitter. */
  lemma UnderflowIffShared(capacity: nat, emitters: nat)
    requires capacity >= 1
    ensures (exists actions :: Execute(capacity, Fresh(emitters), actions).dropped < 0) <==> emitters >= 2
  {
    if emitters >= 2 {
      DoubleReportUnderflows(capacity, emitters, Timed(0, Reset));
    } else {
      forall actions ensures Execute(capacity, Fresh(emitters), actions).dropped >= 0 {
        if emitters == 1 {
          SoloCounter(capacity, actions);
        } else {
          NoEmitters(capacity, Fresh(0), actions);
        }
      }
    }
  }

  lemma {:induction false} NoEmitters(capacity: nat, s: Streams, actions: seq<Action>)
    requires s.emitters == [] && s.dropped == 0
    ensures Execute(capacity, s, actions).dropped == 0
    decreases actions
  {
    if actions == [] {
    } else {
      NoEmitters(capacity, if Enabled(s, actions[0]) then Apply(capacity, s, actions[0]) else s, actions[1..]);
    }
  }
}
