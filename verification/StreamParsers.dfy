/**
  The parser object: eight fields updated in place, byte by byte, with an event sink the caller supplies.
  Every method is proved against the machine of module ParserMachine.
  */
module StreamParsers {
  import opened Bytes
  import opened Codec
  import opened ParserMachine

  /** The closure the source calls with each event, as the sequence of events it has been given. */
  class EventSink {
    var events: seq<Event>

    constructor ()
      ensures events == []
    {
      events := [];
    }

    method Emit(e: Event)
      modifies this
      ensures events == old(events) + [e]
    {
      events := events + [e];
    }
  }

  /** A snapshot of the eight fields. */
  datatype Fields = Fields(
    runningStatus: Option<Byte>, systemCommonStatus: Option<Byte>, sysexBuf: seq<Byte>, inSysex: bool,
    sysexOverflow: bool, pending: seq<Byte>, orphanBuf: seq<Byte>, orphanLen: nat)

  const CLEAR: Fields := Fields(None, None, [], false, false, [], [], 0)

  /** The field values of each situation; everything a situation does not use is cleared. */
  function Concrete(m: Mode): Fields {
    match m
    case Idle => CLEAR
    case Orphans(len, prefix) => CLEAR.(orphanBuf := prefix, orphanLen := len)
    case Running(status, pending) => CLEAR.(runningStatus := Some(status), pending := pending)
    case Common(status, pending) => CLEAR.(systemCommonStatus := Some(status), pending := pending)
    case InSysex(body) => CLEAR.(inSysex := true, sysexBuf := body)
    case Discarding => CLEAR.(inSysex := true, sysexOverflow := true)
  }

  /** The situation that field values stand for. */
  function Abstract(f: Fields): Mode {
    if f.inSysex then (if f.sysexOverflow then Discarding else InSysex(f.sysexBuf))
    else if f.orphanLen > 0 then Orphans(f.orphanLen, f.orphanBuf)
    else
      match (f.runningStatus, f.systemCommonStatus)
      case (_, Some(status)) => Common(status, f.pending)
      case (Some(status), None) => Running(status, f.pending)
      case (None, None) => Idle
  }

  /** What the eight fields may hold between two bytes, field by field. */
  ghost predicate WellKept(f: Fields) {
    // at most one of the four activities is under way
    && (f.inSysex ==> f.runningStatus.None? && f.systemCommonStatus.None? && f.orphanLen == 0)
    && (f.runningStatus.Some? ==> f.systemCommonStatus.None? && f.orphanLen == 0)
    && (f.systemCommonStatus.Some? ==> f.orphanLen == 0)
    // a SysEx is collected only inside one, and no longer once it has grown too long
    && (!f.inSysex || f.sysexOverflow ==> f.sysexBuf == []) && (f.sysexOverflow ==> f.inSysex)
    && |f.sysexBuf| <= MAX_SYSEX_BYTES && AllData(f.sysexBuf)
    // bytes are pending only under a status, which still needs more of them
    && (f.runningStatus.None? && f.systemCommonStatus.None? ==> f.pending == []) && AllData(f.pending)
    && (f.runningStatus.Some? ==>
          IsChannelStatus(f.runningStatus.value) && |f.pending| < Needed(f.runningStatus.value))
    && (f.systemCommonStatus.Some? ==>
          0xF1 <= f.systemCommonStatus.value <= 0xF3 && |f.pending| < Needed(f.systemCommonStatus.value))
    // the orphan buffer is the beginning of the run counted
    && |f.orphanBuf| == Min(f.orphanLen, ORPHAN_PREFIX_BYTES) && AllData(f.orphanBuf)
  }

  /** Reachable situations and well-kept field values are in one-to-one correspondence. */
  lemma AbstractConcrete(m: Mode, f: Fields)
    ensures Reachable(m) ==> WellKept(Concrete(m)) && Abstract(Concrete(m)) == m
    ensures WellKept(f) <==> Reachable(Abstract(f)) && Concrete(Abstract(f)) == f
  {
  }

  class StreamParser {
    var runningStatus: Option<Byte>
    var systemCommonStatus: Option<Byte>
    var sysexBuf: seq<Byte>
    var inSysex: bool
    var sysexOverflow: bool
    var pending: seq<Byte>
    var orphanBuf: seq<Byte>
    var orphanLen: nat

    ghost function State(): Fields
      reads this
    {
      Fields(runningStatus, systemCommonStatus, sysexBuf, inSysex, sysexOverflow, pending, orphanBuf, orphanLen)
    }

    ghost function Situation(): Mode
      reads this
    {
      Abstract(State())
    }

    /** The fields are those of a reachable situation; equivalently, they are `WellKept`. */
    ghost predicate Valid()
      reads this
    {
      Reachable(Situation()) && State() == Concrete(Situation())
    }

    constructor ()
      ensures Valid() && Situation() == Idle
    {
      runningStatus := None;
      systemCommonStatus := None;
      sysexBuf := [];
      inSysex := false;
      sysexOverflow := false;
      pending := [];
      orphanBuf := [];
      orphanLen := 0;
    }

    /** Feeds a chunk: the parser moves and emits as the machine does, wherever the chunk came from. */
    method Push(bytes: seq<Byte>, sink: EventSink)
      requires Valid()
      modifies this, sink
      ensures Valid() && WellKept(State())
      ensures Situation() == Run(old(Situation()), bytes).0
      ensures sink.events == old(sink.events) + Run(old(Situation()), bytes).1
    {
      hide Step, Reachable, Abstract, Concrete;
      ghost var start := Situation();
      var i := 0;
      while i < |bytes|
        invariant 0 <= i <= |bytes|
        invariant Valid()
        invariant Situation() == Run(start, bytes[..i]).0
        invariant sink.events == old(sink.events) + Run(start, bytes[..i]).1
      {
        RunSnoc(start, bytes[..i], bytes[i]);
        assert bytes[..i + 1] == bytes[..i] + [bytes[i]];
        PushByte(bytes[i], sink);
        i := i + 1;
      }
      assert bytes[..i] == bytes;
      AbstractConcrete(Situation(), State());
    }

    /** The body of the push loop. */
    method PushByte(b: Byte, sink: EventSink)
      requires Valid()
      modifies this, sink
      ensures Valid()
      ensures Situation() == Step(old(Situation()), b).0
      ensures sink.events == old(sink.events) + Step(old(Situation()), b).1
    {
      hide StepInSysex, StepStatus, StepData;
      if b >= 0xF8 {
        match Decode([b]) {
          case Ok(Message(msg)) => sink.Emit(MessageEvent(msg));
          case Ok(SysExMessage(_)) => assert false; // the source's `unreachable!`
          case Err(e) => sink.Emit(ErrorEvent(e));
        }
        return;
      }

      if b == 0xF0 {
        FlushOrphans(sink);
        if inSysex {
          AbortSysex(sink);
        }
        inSysex := true;
        sysexBuf := [];
        pending := [];
        runningStatus := None;
        systemCommonStatus := None;
        return;
      }

      if inSysex {
        PushInSysex(b, sink);
        return;
      }

      if b >= 0x80 {
        PushStatus(b, sink);
        return;
      }

      PushData(b, sink);
    }

    /** A data byte while no SysEx is open. */
    method PushData(b: Byte, sink: EventSink)
      requires Valid() && !inSysex && IsData(b)
      modifies this, sink
      ensures Valid()
      ensures Situation() == StepData(old(Situation()), b).0
      ensures sink.events == old(sink.events) + StepData(old(Situation()), b).1
    {
      hide Decode;
      match systemCommonStatus {
        case Some(status) =>
          pending := pending + [b];
          if |pending| == Needed(status) {
            var packet := [status] + pending;
            pending := [];
            systemCommonStatus := None;
            EmitDecoded(packet, sink);
          }
          return;
        case None =>
      }

      match runningStatus {
        case Some(status) =>
          pending := pending + [b];
          var needed := Needed(status);
          if needed > 0 && |pending| == needed {
            var packet := [status] + pending;
            pending := [];
            EmitDecoded(packet, sink);
          }
        case None =>
          if |orphanBuf| < ORPHAN_PREFIX_BYTES {
            orphanBuf := orphanBuf + [b];
          }
          orphanLen := orphanLen + 1;
      }
    }

    method EmitDecoded(packet: seq<Byte>, sink: EventSink)
      modifies sink
      ensures sink.events == old(sink.events) + [ToEvent(Decode(packet))]
    {
      match Decode(packet) {
        case Ok(Message(msg)) => sink.Emit(MessageEvent(msg));
        case Ok(SysExMessage(sysex)) => sink.Emit(SysexEvent(sysex));
        case Err(e) => sink.Emit(ErrorEvent(e));
      }
    }

    /** A byte below F8, other than F0, while a SysEx is open. */
    method PushInSysex(b: Byte, sink: EventSink)
      requires Valid() && inSysex && !IsRealTime(b) && b != 0xF0
      modifies this, sink
      ensures Valid()
      ensures Situation() == StepInSysex(old(Situation()), b).0
      ensures sink.events == old(sink.events) + StepInSysex(old(Situation()), b).1
    {
      hide SysExTryFrom;
      if b == 0xF7 {
        inSysex := false;
        if sysexOverflow {
          sysexOverflow := false;
        } else {
          var body := sysexBuf;
          var wire := [0xF0];
          wire := wire + body;
          wire := wire + [0xF7];
          match SysExTryFrom(wire) {
            case Ok(sysex) => sink.Emit(SysexEvent(sysex));
            case Err(e) => sink.Emit(ErrorEvent(SysexDecodeError(e, wire)));
          }
          sysexBuf := [];
        }
      } else if b >= 0x80 {
        AbortSysex(sink);
        if b < 0xF0 {
          StartStatus(b);
        } else {
          HandleSystemCommon(b, sink);
        }
      } else if !sysexOverflow {
        if |sysexBuf| + 1 > MAX_SYSEX_BYTES {
          sink.Emit(ErrorEvent(SysexTooLong(|sysexBuf| + 1, MAX_SYSEX_BYTES)));
          sysexOverflow := true;
          sysexBuf := [];
        } else {
          sysexBuf := sysexBuf + [b];
        }
      }
    }

    /** A status byte below F8, other than F0, while no SysEx is open. */
    method PushStatus(b: Byte, sink: EventSink)
      requires Valid() && !inSysex && IsStatus(b) && b != 0xF0
      modifies this, sink
      ensures Valid()
      ensures Situation() == StepStatus(old(Situation()), b).0
      ensures sink.events == old(sink.events) + StepStatus(old(Situation()), b).1
    {
      if b == 0xF7 && orphanLen > 0 {
        if |orphanBuf| < ORPHAN_PREFIX_BYTES {
          orphanBuf := orphanBuf + [b];
        }
        orphanLen := orphanLen + 1;
        FlushOrphans(sink);
        return;
      }
      FlushOrphans(sink);
      if b < 0xF0 {
        systemCommonStatus := None;
        StartStatus(b);
      } else {
        HandleSystemCommon(b, sink);
      }
    }

    method FlushOrphans(sink: EventSink)
      requires orphanLen == 0 ==> orphanBuf == []
      modifies this`orphanLen, this`orphanBuf, sink
      ensures orphanLen == 0 && orphanBuf == []
      ensures sink.events
              == old(sink.events) + if old(orphanLen) == 0 then [] else [OrphanError(old(orphanLen), old(orphanBuf))]
    {
      if orphanLen == 0 {
        return;
      }
      var len, bytes := orphanLen, orphanBuf;
      orphanLen, orphanBuf := 0, [];
      sink.Emit(ErrorEvent(Parse(OrphanedData(len), bytes)));
    }

    method StartStatus(status: Byte)
      modifies this`pending, this`runningStatus
      ensures pending == [] && runningStatus == Some(status)
    {
      pending := [];
      runningStatus := Some(status);
    }

    method AbortSysex(sink: EventSink)
      requires sysexOverflow ==> sysexBuf == []
      modifies this`inSysex, this`sysexOverflow, this`sysexBuf, sink
      ensures !inSysex && !sysexOverflow && sysexBuf == []
      ensures sink.events
              == old(sink.events) + if old(sysexOverflow) then [] else [UnterminatedError(old(sysexBuf))]
    {
      inSysex := false;
      if sysexOverflow {
        sysexOverflow := false;
        return;
      }
      var body := sysexBuf;
      sysexBuf := [];
      var bytes := [0xF0];
      bytes := bytes + body;
      sink.Emit(ErrorEvent(Parse(UnterminatedSysex, bytes)));
    }

    method HandleSystemCommon(b: Byte, sink: EventSink)
      requires 0xF1 <= b <= 0xF7
      modifies this`runningStatus, this`systemCommonStatus, this`pending, sink
      ensures runningStatus == None && pending == []
      ensures systemCommonStatus == if b <= 0xF3 then Some(b) else None
      ensures sink.events == old(sink.events) + SystemCommon(b).1
    {
      runningStatus := None;
      systemCommonStatus := None;
      pending := [];
      if b == 0xF6 {
        sink.Emit(MessageEvent(TuneRequest));
      } else if b <= 0xF3 {
        systemCommonStatus := Some(b);
      } else {
        match Decode([b]) {
          case Err(e) => sink.Emit(ErrorEvent(e));
          case Ok(_) =>
        }
      }
    }
  }
}
