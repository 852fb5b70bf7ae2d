/**
  The stream parser as a pure machine: what one byte does to the parser's situation, and which events it emits.
  `Mode` names the situations the source encodes in eight fields; module StreamParsers shows that the fields
  never hold anything else.
  */
module ParserMachine {
  import opened Bytes
  import opened Codec
  import opened Machines

  datatype Event =
    | MessageEvent(message: MidiMessage)
    | SysexEvent(sysex: SysEx)
    | ErrorEvent(error: CodecError)

  datatype Mode =
    | Idle
    | Orphans(len: nat, prefix: seq<Byte>)
    | Running(status: Byte, pending: seq<Byte>)
    | Common(status: Byte, pending: seq<Byte>)
    | InSysex(body: seq<Byte>)
    | Discarding

  /** Data bytes that complete a message of this status; 0 when the status takes none. */
  function Needed(status: Byte): (n: nat)
    ensures IsChannelStatus(status) ==> n == if 0xC0 <= status < 0xE0 then 1 else 2
    ensures 0xF1 <= status <= 0xF3 ==> n == if status == 0xF2 then 2 else 1
  {
    match ExpectedLen(status)
    case Some(total) => total - 1
    case None => 0
  }

  /** The invariant of the parser's reachable situations. */
  ghost predicate Reachable(m: Mode) {
    match m
    case Idle => true
    case Orphans(len, prefix) => len > 0 && |prefix| == Min(len, ORPHAN_PREFIX_BYTES) && AllData(prefix)
    case Running(status, pending) => IsChannelStatus(status) && |pending| < Needed(status) && AllData(pending)
    case Common(status, pending) => 0xF1 <= status <= 0xF3 && |pending| < Needed(status) && AllData(pending)
    case InSysex(body) => |body| <= MAX_SYSEX_BYTES && AllData(body)
    case Discarding => true
  }

  function ToEvent(r: Result<Decoded, CodecError>): Event {
    match r
    case Ok(Message(msg)) => MessageEvent(msg)
    case Ok(SysExMessage(sysex)) => SysexEvent(sysex)
    case Err(e) => ErrorEvent(e)
  }

  /** The event of an assembled packet. */
  function Assembled(status: Byte, data: seq<Byte>): Event {
    ToEvent(Decode([status] + data))
  }

  function SysexEnd(body: seq<Byte>): Event {
    match SysExTryFrom(SysExWire(body))
    case Ok(sysex) => SysexEvent(sysex)
    case Err(e) => ErrorEvent(SysexDecodeError(e, SysExWire(body)))
  }

  function OrphanError(len: nat, prefix: seq<Byte>): Event {
    ErrorEvent(Parse(OrphanedData(len), prefix))
  }

  function UnterminatedError(body: seq<Byte>): Event {
    ErrorEvent(Parse(UnterminatedSysex, [0xF0] + body))
  }

  const TOO_LONG: Event := ErrorEvent(SysexTooLong(MAX_SYSEX_BYTES + 1, MAX_SYSEX_BYTES))

  /** Appends to an orphan prefix unless it is full. */
  function Capped(prefix: seq<Byte>, b: Byte): seq<Byte> {
    if |prefix| < ORPHAN_PREFIX_BYTES then prefix + [b] else prefix
  }

  /** What a status byte cuts short: a pending orphan run, or a SysEx that is not being discarded. */
  function Interrupted(m: Mode): seq<Event> {
    match m
    case Orphans(len, prefix) => [OrphanError(len, prefix)]
    case InSysex(body) => [UnterminatedError(body)]
    case _ => []
  }

  /** A system-common byte F1..F7 that does not end a SysEx or an orphan run. */
  function SystemCommon(b: Byte): (Mode, seq<Event>) {
    if b == 0xF6 then (Idle, [MessageEvent(TuneRequest)])
    else if b <= 0xF3 then (Common(b, []), [])
    else
      match Decode([b])
      case Ok(_) => (Idle, [])
      case Err(e) => (Idle, [ErrorEvent(e)])
  }

  /** A data byte towards a message of `status`: emit when complete, with `after` the situation then. */
  function Collect(m: Mode, b: Byte, after: Mode): (Mode, seq<Event>)
    requires m.Running? || m.Common?
  {
    var pending := m.pending + [b];
    if |pending| == Needed(m.status) then (after, [Assembled(m.status, pending)])
    else (if m.Running? then Running(m.status, pending) else Common(m.status, pending), [])
  }

  /** A byte below F8, other than F0, inside a SysEx. */
  function StepInSysex(m: Mode, b: Byte): (Mode, seq<Event>)
    requires m.InSysex? || m.Discarding?
  {
    if b == 0xF7 then (Idle, if m.InSysex? then [SysexEnd(m.body)] else [])
    else if IsChannelStatus(b) then (Running(b, []), Interrupted(m))
    else if b >= 0x80 then (SystemCommon(b).0, Interrupted(m) + SystemCommon(b).1)
    else if m.Discarding? then (m, [])
    else if |m.body| + 1 > MAX_SYSEX_BYTES then
      (Discarding, [ErrorEvent(SysexTooLong(|m.body| + 1, MAX_SYSEX_BYTES))])
    else (InSysex(m.body + [b]), [])
  }

  /** A status byte below F8, other than F0, outside a SysEx. */
  function StepStatus(m: Mode, b: Byte): (Mode, seq<Event>) {
    if b == 0xF7 && m.Orphans? then (Idle, [OrphanError(m.len + 1, Capped(m.prefix, b))])
    else if IsChannelStatus(b) then (Running(b, []), Interrupted(m))
    else (SystemCommon(b).0, Interrupted(m) + SystemCommon(b).1)
  }

  /** A data byte outside a SysEx. */
  function StepData(m: Mode, b: Byte): (Mode, seq<Event>) {
    match m
    case Common(_, _) => Collect(m, b, Idle)
    case Running(status, _) => Collect(m, b, Running(status, []))
    case Orphans(len, prefix) => (Orphans(len + 1, Capped(prefix, b)), [])
    case _ => (Orphans(1, [b]), [])
  }

  /** One byte. */
  function Step(m: Mode, b: Byte): (Mode, seq<Event>) {
    if IsRealTime(b) then (m, [ToEvent(Decode([b]))])
    else if b == 0xF0 then (InSysex([]), Interrupted(m))
    else if m.InSysex? || m.Discarding? then StepInSysex(m, b)
    else if b >= 0x80 then StepStatus(m, b)
    else StepData(m, b)
  }

  /** A whole byte string: the final situation and everything emitted, in order. */
  function Run(m: Mode, bs: seq<Byte>): (Mode, seq<Event>) {
    Fold(Step, m, bs)
  }

  /** Pushing chunk after chunk. */
  function RunChunks(m: Mode, chunks: seq<seq<Byte>>): (Mode, seq<Event>)
    decreases chunks
  {
    if chunks == [] then (m, [])
    else
      var (m1, e1) := Run(m, chunks[0]);
      var (m2, e2) := RunChunks(m1, chunks[1..]);
      (m2, e1 + e2)
  }

  // ---- Composition ----------------------------------------------------------------------------

  lemma RunNil(m: Mode)
    ensures Run(m, []) == (m, [])
  {
  }

  lemma RunOne(m: Mode, b: Byte)
    ensures Run(m, [b]) == Step(m, b)
  {
    FoldOne(Step, m, b);
  }

  lemma RunConcat(m: Mode, p: seq<Byte>, q: seq<Byte>)
    ensures Run(m, p + q) == (Run(Run(m, p).0, q).0, Run(m, p).1 + Run(Run(m, p).0, q).1)
  {
    FoldConcat(Step, m, p, q);
  }

  lemma RunCons(m: Mode, b: Byte, q: seq<Byte>)
    ensures Run(m, [b] + q) == (Run(Step(m, b).0, q).0, Step(m, b).1 + Run(Step(m, b).0, q).1)
  {
    FoldOne(Step, m, b);
    FoldConcat(Step, m, [b], q);
  }

  lemma RunSnoc(m: Mode, p: seq<Byte>, b: Byte)
    ensures Run(m, p + [b]) == (Step(Run(m, p).0, b).0, Run(m, p).1 + Step(Run(m, p).0, b).1)
  {
    FoldOne(Step, Run(m, p).0, b);
    FoldConcat(Step, m, p, [b]);
  }

  /** Where the stream is cut into packets makes no difference. */
  lemma {:induction false} ChunkingIrrelevant(m: Mode, chunks: seq<seq<Byte>>)
    ensures RunChunks(m, chunks) == Run(m, Flatten(chunks))
    decreases chunks
  {
    if chunks == [] {
    } else {
      ChunkingIrrelevant(Run(m, chunks[0]).0, chunks[1..]);
      RunConcat(m, chunks[0], Flatten(chunks[1..]));
    }
  }

  // ---- The invariant --------------------------------------------------------------------------

  lemma StepReachable(m: Mode, b: Byte)
    requires Reachable(m)
    ensures Reachable(Step(m, b).0)
  {
  }

  /** Every run stays within the reachable situations. */
  lemma {:induction false} RunReachable(m: Mode, bs: seq<Byte>)
    requires Reachable(m)
    ensures Reachable(Run(m, bs).0)
    decreases bs
  {
    if bs == [] {
    } else {
      StepReachable(m, bs[0]);
      RunReachable(Step(m, bs[0]).0, bs[1..]);
    }
  }

  // ---- Status bytes ---------------------------------------------------------------------------

  /** The situation a status byte leaves, whatever came before it. */
  function AfterStatus(b: Byte): Mode
    requires IsStatus(b)
  {
    if IsChannelStatus(b) then Running(b, [])
    else if b == 0xF0 then InSysex([])
    else if b <= 0xF3 then Common(b, [])
    else Idle
  }

  /** The event of the status byte itself, when it neither ends a SysEx nor joins an orphan run. */
  function Opening(b: Byte): seq<Event>
    requires IsStatus(b)
  {
    if b == 0xF6 then [MessageEvent(TuneRequest)]
    else if b == 0xF4 || b == 0xF5 then [ErrorEvent(Parse(UnrecognizedStatus, [b]))]
    else if b == 0xF7 then [ErrorEvent(Parse(StandaloneSysexEnd, [b]))]
    else []
  }

  /** From every situation, a status byte leads to the same place and emits the interruption, then its own event. */
  lemma StatusStep(m: Mode, b: Byte)
    requires Reachable(m) && IsStatus(b)
    ensures Step(m, b).0 == AfterStatus(b)
    ensures b != 0xF7 || m.Idle? || m.Running? || m.Common? ==> Step(m, b).1 == Interrupted(m) + Opening(b)
    ensures b == 0xF7 ==>
              Step(m, b).1 == match m
                              case Orphans(len, prefix) => [OrphanError(len + 1, Capped(prefix, b))]
                              case InSysex(body) => [SysexEnd(body)]
                              case Discarding => []
                              case _ => Opening(b)
  {
  }
}
