/** Safety of every run of the stream parser: what it can emit, how much, and where each data byte goes. */
module ParserSafety {
  import opened Bytes
  import opened Codec
  import opened Machines
  import opened ParserMachine
  import opened Segments

  // ---- Event soundness ------------------------------------------------------------------------

  /** The only events there are: messages that survive their own encoding, 7-bit SysEx, and six kinds of error. */
  predicate Sound(e: Event) {
    match e
    case MessageEvent(msg) => Decode(Wire(Message(msg))) == Ok(Message(msg))
    case SysexEvent(body) => 1 <= |body| <= MAX_SYSEX_BYTES && AllData(body)
    case ErrorEvent(SysexTooLong(len, max)) => len == MAX_SYSEX_BYTES + 1 && max == MAX_SYSEX_BYTES
    case ErrorEvent(Unparseable(_)) => false
    case ErrorEvent(Parse(reason, bytes)) =>
      match reason
      case UnrecognizedStatus => bytes in {[0xF4], [0xF5], [0xF9], [0xFD]}
      case StandaloneSysexEnd => bytes == [0xF7]
      case EmptySysex => bytes == [0xF0, 0xF7]
      case UnterminatedSysex => 1 <= |bytes| <= MAX_SYSEX_BYTES + 1 && bytes[0] == 0xF0 && AllData(bytes[1..])
      case OrphanedData(len) => len > 0 && |bytes| == Min(len, ORPHAN_PREFIX_BYTES) && OrphanBytes(bytes, len)
      case _ => false
  }

  /** The shown bytes of an orphan run are data, but for an F7 that ended the run within the prefix. */
  predicate OrphanBytes(bytes: seq<Byte>, len: nat) {
    || AllData(bytes)
    || (1 < |bytes| == len && AllData(Init(bytes)) && Last(bytes) == 0xF7)
  }

  lemma AssembledSound(status: Byte, data: seq<Byte>)
    requires IsChannelStatus(status) || 0xF1 <= status <= 0xF3
    requires |data| == Needed(status) && AllData(data)
    ensures Sound(Assembled(status, data))
    ensures Assembled(status, data).MessageEvent?
    ensures data != [] && (Wire(Message(Assembled(status, data).message))[1..] == data)
  {
    var w := [status] + data;
    assert w[1..] == data;
    DecodeAccepts(w);
    EncodeDecode(w);
    FixedPoints(Decode(w).value);
  }

  lemma OpeningSound(b: Byte)
    requires IsStatus(b)
    ensures forall e <- Opening(b) :: Sound(e)
  {
    hide Decode;
    DecodeEncode(Message(TuneRequest));
  }

  lemma InterruptedSound(m: Mode)
    requires Reachable(m)
    ensures forall e <- Interrupted(m) :: Sound(e)
  {
    if m.InSysex? {
      assert ([0xF0] + m.body)[1..] == m.body;
    }
  }

  lemma OrphanEndSound(len: nat, prefix: seq<Byte>)
    requires Reachable(Orphans(len, prefix))
    ensures Sound(OrphanError(len + 1, Capped(prefix, 0xF7)))
  {
    if len < ORPHAN_PREFIX_BYTES {
      assert Init(prefix + [0xF7]) == prefix;
    }
  }

  lemma SysexEndSound(body: seq<Byte>)
    requires Reachable(InSysex(body))
    ensures Sound(SysexEnd(body))
  {
    SysExFrame(body);
    assert body == [] ==> SysExWire(body) == [0xF0, 0xF7];
  }

  lemma StatusSound(m: Mode, b: Byte)
    requires Reachable(m) && IsStatus(b)
    ensures forall e <- Step(m, b).1 :: Sound(e)
  {
    hide Sound, Opening, Interrupted, Step;
    StatusStep(m, b);
    OpeningSound(b);
    InterruptedSound(m);
    match m {
      case Orphans(len, prefix) => OrphanEndSound(len, prefix);
      case InSysex(body) => SysexEndSound(body);
      case _ =>
    }
  }

  lemma DataSound(m: Mode, b: Byte)
    requires Reachable(m) && IsData(b)
    ensures forall e <- Step(m, b).1 :: Sound(e)
  {
    hide Decode, Assembled;
    if m.Running? || m.Common? {
      var pending := m.pending + [b];
      if |pending| == Needed(m.status) {
        AssembledSound(m.status, pending);
      }
    }
  }

  lemma RealTimeSound(m: Mode, b: Byte)
    requires IsRealTime(b)
    ensures forall e <- Step(m, b).1 :: Sound(e)
  {
    DecodeAccepts([b]);
    if Decode([b]).Ok? {
      EncodeDecode([b]);
    }
  }

  /** Soundness of every run, from every reachable situation. */
  lemma {:induction false} RunSound(m: Mode, bs: seq<Byte>)
    requires Reachable(m)
    ensures forall e <- Run(m, bs).1 :: Sound(e)
    decreases bs
  {
    hide Run, Step, Sound, Reachable;
    if bs == [] {
      RunNil(m);
    } else {
      var b := bs[0];
      assert bs == [b] + bs[1..];
      RunCons(m, b, bs[1..]);
      StepReachable(m, b);
      RunSound(Step(m, b).0, bs[1..]);
      if IsData(b) {
        DataSound(m, b);
      } else if IsStatus(b) {
        StatusSound(m, b);
      } else {
        RealTimeSound(m, b);
      }
    }
  }

  // ---- Output bound ---------------------------------------------------------------------------

  /** One event is still owed while an orphan run or a SysEx that is not being discarded is open. */
  function Owed(m: Mode): nat {
    if m.Orphans? || m.InSysex? then 1 else 0
  }

  lemma StepBound(m: Mode, b: Byte)
    requires Reachable(m)
    ensures |Step(m, b).1| + Owed(Step(m, b).0) <= 1 + Owed(m)
  {
    hide Decode, Assembled, SysexEnd;
    if IsStatus(b) {
      StatusStep(m, b);
    }
  }

  /** A byte may emit two events, yet a parser never emits more events than it has been given bytes. */
  lemma {:induction false} OutputBound(m: Mode, bs: seq<Byte>)
    requires Reachable(m)
    ensures |Run(m, bs).1| + Owed(Run(m, bs).0) <= |bs| + Owed(m)
    decreases bs
  {
    hide Run, Step, Reachable, Owed;
    if bs == [] {
      RunNil(m);
    } else {
      assert bs == [bs[0]] + bs[1..];
      RunCons(m, bs[0], bs[1..]);
      StepReachable(m, bs[0]);
      StepBound(m, bs[0]);
      OutputBound(Step(m, bs[0]).0, bs[1..]);
    }
  }

  // ---- Conservation of data bytes -------------------------------------------------------------

  /** A run of consecutive data bytes and what became of it. */
  datatype Chunk =
    | Delivered(event: Event, data: seq<Byte>)
    | Dropped(data: seq<Byte>)
    | Discarded(data: seq<Byte>)

  /** A situation together with the data bytes it holds: a partial message, an orphan run or a SysEx body. */
  datatype Holding = Holding(mode: Mode, held: seq<Byte>)

  ghost predicate Holds(h: Holding) {
    && Reachable(h.mode)
    && match h.mode
       case Orphans(len, prefix) => |h.held| == len && Shown(h.held) == prefix && AllData(h.held)
       case Running(_, pending) => h.held == pending
       case Common(_, pending) => h.held == pending
       case InSysex(body) => h.held == body
       case _ => h.held == []
  }

  /** Events made of data bytes. */
  predicate Carries(e: Event) {
    match e
    case MessageEvent(msg) => |Wire(Message(msg))| > 1
    case SysexEvent(_) => true
    case ErrorEvent(Parse(UnterminatedSysex, _)) => true
    case ErrorEvent(Parse(OrphanedData(_), _)) => true
    case _ => false
  }

  /** The event's contents are these data bytes, all of them and in this order. */
  predicate Explains(e: Event, data: seq<Byte>) {
    match e
    case MessageEvent(msg) => |Wire(Message(msg))| > 1 && Wire(Message(msg))[1..] == data
    case SysexEvent(body) => body == data
    case ErrorEvent(Parse(UnterminatedSysex, bytes)) => bytes == [0xF0] + data
    case ErrorEvent(Parse(OrphanedData(len), bytes)) =>
      || (len == |data| && bytes == Shown(data))
      || (len == |data| + 1 && bytes == Shown(data + [0xF7]))
    case _ => false
  }

  /** The data bytes held after one more byte, and those that left. */
  function Account(h: Holding, b: Byte): (Holding, seq<Chunk>) {
    var (m, events) := Step(h.mode, b);
    if IsRealTime(b) then (h, [])
    else if IsStatus(b) then
      (Holding(m, []),
       if h.held == [] && !h.mode.InSysex? then []
       else if h.mode.Running? || h.mode.Common? then [Dropped(h.held)]
       else if events != [] && Carries(events[0]) then [Delivered(events[0], h.held)]
       else [])
    else if m.Discarding? then (Holding(m, []), [Discarded(h.held + [b])])
    else if events != [] then (Holding(m, []), [Delivered(events[0], h.held + [b])])
    else (Holding(m, h.held + [b]), [])
  }

  function Accounts(h: Holding, bs: seq<Byte>): (Holding, seq<Chunk>) {
    Fold(Account, h, bs)
  }

  function DataOf(chunks: seq<Chunk>): seq<Byte> {
    if chunks == [] then [] else chunks[0].data + DataOf(chunks[1..])
  }

  function EventsOf(chunks: seq<Chunk>): seq<Event> {
    if chunks == [] then []
    else (if chunks[0].Delivered? then [chunks[0].event] else []) + EventsOf(chunks[1..])
  }

  function DroppedCount(chunks: seq<Chunk>): nat {
    if chunks == [] then 0 else (if chunks[0].Dropped? then |chunks[0].data| else 0) + DroppedCount(chunks[1..])
  }

  function DataBytes(bs: seq<Byte>): seq<Byte> {
    Filter(b => IsData(b), bs)
  }

  function StatusBytes(bs: seq<Byte>): seq<Byte> {
    Filter(b => IsStatus(b), bs)
  }

  function Carrying(es: seq<Event>): seq<Event> {
    Filter(e => Carries(e), es)
  }

  predicate Explained(chunks: seq<Chunk>) {
    forall c <- chunks :: c.Delivered? ==> Explains(c.event, c.data)
  }

  predicate Discards(chunks: seq<Chunk>) {
    exists c <- chunks :: c.Discarded?
  }

  /** What one byte's account must satisfy. */
  ghost predicate Balanced(h: Holding, b: Byte) {
    var (h', chunks) := Account(h, b);
    var (m', events) := Step(h.mode, b);
    && h'.mode == m' && Holds(h')
    && DataOf(chunks) + h'.held == h.held + (if IsData(b) then [b] else [])
    && EventsOf(chunks) == Carrying(events)
    && Explained(chunks)
    && DroppedCount(chunks) <= (if IsStatus(b) then 1 else 0)
    && (m'.Discarding? || Discards(chunks) ==> h.mode.Discarding? || TOO_LONG in events)
  }

  lemma CarryingOne(e: Event)
    ensures Carrying([e]) == if Carries(e) then [e] else []
  {
    FilterAll(x => Carries(x), [e]);
  }

  lemma ChunkOne(c: Chunk)
    ensures DataOf([c]) == c.data
    ensures EventsOf([c]) == if c.Delivered? then [c.event] else []
    ensures DroppedCount([c]) == if c.Dropped? then |c.data| else 0
  {
    assert [c][1..] == [];
  }

  lemma RealTimeBalanced(h: Holding, b: Byte)
    requires Holds(h) && IsRealTime(b)
    ensures Balanced(h, b)
  {
    DecodeAccepts([b]);
    CarryingOne(ToEvent(Decode([b])));
    if Decode([b]).Ok? {
      EncodeDecode([b]);
    }
  }

  lemma DataBalanced(h: Holding, b: Byte)
    requires Holds(h) && IsData(b)
    ensures Balanced(h, b)
  {
    hide Decode, Assembled;
    var m, more := h.mode, h.held + [b];
    StepReachable(m, b);
    CappedExtend(h.held, b);
    if (m.Running? || m.Common?) && |m.pending| + 1 == Needed(m.status) {
      AssembledSound(m.status, more);
      CarryingOne(Assembled(m.status, more));
      ChunkOne(Delivered(Assembled(m.status, more), more));
    } else if m.Discarding? || (m.InSysex? && |m.body| + 1 > MAX_SYSEX_BYTES) {
      CarryingOne(TOO_LONG);
      ChunkOne(Discarded(more));
    } else {
      assert h.held == [] ==> Shown(more) == [b];
    }
  }

  lemma StatusBalanced(h: Holding, b: Byte)
    requires Holds(h) && IsStatus(b)
    ensures Balanced(h, b)
  {
    if h.mode.Orphans? || h.mode.InSysex? {
      InterruptedBalanced(h, b);
    } else {
      PartialBalanced(h, b);
    }
  }

  lemma InterruptedBalanced(h: Holding, b: Byte)
    requires Holds(h) && IsStatus(b) && (h.mode.Orphans? || h.mode.InSysex?)
    ensures Balanced(h, b)
  {
    hide Decode, Assembled;
    var m, events := h.mode, Step(h.mode, b).1;
    StepReachable(m, b);
    StatusStep(m, b);
    FirstExplained(h, b);
    FirstCarries(events, b);
    ChunkOne(Delivered(events[0], h.held));
  }

  lemma FirstExplained(h: Holding, b: Byte)
    requires Holds(h) && IsStatus(b) && (h.mode.Orphans? || h.mode.InSysex?)
    ensures var events := Step(h.mode, b).1;
            && |events| > 0
            && (events == [events[0]] + Opening(b) || events == [events[0]])
            && (Carries(events[0]) ==> Explains(events[0], h.held))
            && (!Carries(events[0]) ==> h.held == [])
  {
    hide Decode, Opening;
    StatusStep(h.mode, b);
    if h.mode.Orphans? {
      CappedExtend(h.held, b);
    } else {
      SysExFrame(h.mode.body);
    }
  }

  lemma PartialBalanced(h: Holding, b: Byte)
    requires Holds(h) && IsStatus(b) && !h.mode.Orphans? && !h.mode.InSysex?
    ensures Balanced(h, b)
  {
    hide Decode, Assembled;
    StepReachable(h.mode, b);
    StatusStep(h.mode, b);
    OpeningCarriesNothing(b);
    assert [] + Opening(b) == Opening(b);
    ChunkOne(Dropped(h.held));
  }

  lemma OpeningCarriesNothing(b: Byte)
    requires IsStatus(b)
    ensures Carrying(Opening(b)) == []
  {
    if Opening(b) != [] {
      CarryingOne(Opening(b)[0]);
    }
  }

  lemma FirstCarries(events: seq<Event>, b: Byte)
    requires IsStatus(b) && |events| > 0
    requires events == [events[0]] + Opening(b) || events == [events[0]]
    ensures Carrying(events) == if Carries(events[0]) then [events[0]] else []
  {
    OpeningCarriesNothing(b);
    CarryingOne(events[0]);
    FilterConcat(e => Carries(e), [events[0]], Opening(b));
  }

  lemma Balance(h: Holding, b: Byte)
    requires Holds(h)
    ensures Balanced(h, b)
  {
    hide Balanced, Holds;
    if IsData(b) {
      DataBalanced(h, b);
    } else if IsStatus(b) {
      StatusBalanced(h, b);
    } else {
      RealTimeBalanced(h, b);
    }
  }

  lemma {:induction false} ChunksConcat(xs: seq<Chunk>, ys: seq<Chunk>)
    ensures DataOf(xs + ys) == DataOf(xs) + DataOf(ys)
    ensures EventsOf(xs + ys) == EventsOf(xs) + EventsOf(ys)
    ensures DroppedCount(xs + ys) == DroppedCount(xs) + DroppedCount(ys)
  {
    if xs == [] {
      assert xs + ys == ys;
    } else {
      var x, zs := xs[0], xs[1..] + ys;
      var event := if x.Delivered? then [x.event] else [];
      assert (xs + ys)[1..] == zs;
      ChunksConcat(xs[1..], ys);
      assert DataOf(xs + ys) == x.data + (DataOf(xs[1..]) + DataOf(ys)) == (x.data + DataOf(xs[1..])) + DataOf(ys);
      assert EventsOf(xs + ys) == event + (EventsOf(xs[1..]) + EventsOf(ys))
          == (event + EventsOf(xs[1..])) + EventsOf(ys);
    }
  }

  lemma AccountsCons(h: Holding, b: Byte, rest: seq<Byte>)
    ensures Accounts(h, [b] + rest)
            == (Accounts(Account(h, b).0, rest).0, Account(h, b).1 + Accounts(Account(h, b).0, rest).1)
  {
    FoldOne(Account, h, b);
    FoldConcat(Account, h, [b], rest);
  }

  lemma CarryingConcat(xs: seq<Event>, ys: seq<Event>)
    ensures Carrying(xs + ys) == Carrying(xs) + Carrying(ys)
  {
    FilterConcat(e => Carries(e), xs, ys);
  }

  lemma CountsCons(b: Byte, rest: seq<Byte>)
    ensures DataBytes([b] + rest) == (if IsData(b) then [b] else []) + DataBytes(rest)
    ensures |StatusBytes([b] + rest)| == (if IsStatus(b) then 1 else 0) + |StatusBytes(rest)|
  {
    assert ([b] + rest)[1..] == rest;
  }

  /**
    The balance of a run: the data bytes given, after those already held, are the delivered, dropped and discarded
    chunks in order, then what is held at the end. The delivered chunks are exactly the contents of the emitted
    events that carry data, in the same order. A status byte drops at most one byte. Bytes are discarded only
    after the one error that reports an oversized SysEx.
    */
  ghost predicate Conserved(h: Holding, bs: seq<Byte>) {
    var (h', chunks) := Accounts(h, bs);
    && h'.mode == Run(h.mode, bs).0 && Holds(h')
    && DataOf(chunks) + h'.held == h.held + DataBytes(bs)
    && EventsOf(chunks) == Carrying(Run(h.mode, bs).1)
    && Explained(chunks)
    && DroppedCount(chunks) <= |StatusBytes(bs)|
    && (h'.mode.Discarding? || Discards(chunks) ==> h.mode.Discarding? || TOO_LONG in Run(h.mode, bs).1)
  }

  lemma ConservedCons(h: Holding, b: Byte, rest: seq<Byte>)
    requires Balanced(h, b) && Conserved(Account(h, b).0, rest)
    ensures Conserved(h, [b] + rest)
  {
    hide Step, Run, Account, Accounts, Explains, Holds, Carrying;
    hide DataBytes, StatusBytes, DataOf, EventsOf, DroppedCount;
    var (h1, c1) := Account(h, b);
    var (h', c2) := Accounts(h1, rest);
    RunCons(h.mode, b, rest);
    AccountsCons(h, b, rest);
    CountsCons(b, rest);
    ChunksConcat(c1, c2);
    CarryingConcat(Step(h.mode, b).1, Run(h1.mode, rest).1);
    var d := if IsData(b) then [b] else [];
    assert (DataOf(c1) + DataOf(c2)) + h'.held == DataOf(c1) + (h1.held + DataBytes(rest))
        == (h.held + d) + DataBytes(rest) == h.held + DataBytes([b] + rest);
  }

  /** Conservation: over every run each data byte is in exactly one place, in order. */
  lemma {:induction false} DataConserved(h: Holding, bs: seq<Byte>)
    requires Holds(h)
    ensures Conserved(h, bs)
    decreases bs
  {
    hide Step, Account, Explains;
    if bs == [] {
      assert [] + h.held == h.held + [];
    } else {
      var b, rest := bs[0], bs[1..];
      assert bs == [b] + rest;
      Balance(h, b);
      DataConserved(Account(h, b).0, rest);
      ConservedCons(h, b, rest);
    }
  }
}
