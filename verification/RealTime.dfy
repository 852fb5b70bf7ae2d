/** Real-time bytes may appear anywhere: they are answered at once and the rest of the stream does not notice. */
module RealTime {
  import opened Bytes
  import opened Codec
  import opened ParserMachine

  /** The stream without its real-time bytes. */
  function NonRealTime(bs: seq<Byte>): seq<Byte> {
    Filter(b => !IsRealTime(b), bs)
  }

  function RealTimeBytes(bs: seq<Byte>): seq<Byte> {
    Filter(b => IsRealTime(b), bs)
  }

  /** Events that only a real-time byte can cause. */
  predicate IsRealTimeEvent(e: Event) {
    match e
    case MessageEvent(msg) =>
      msg.TimingClock? || msg.Start? || msg.Continue? || msg.Stop? || msg.ActiveSensing? || msg.Reset?
    case ErrorEvent(Parse(UnrecognizedStatus, bytes)) => |bytes| == 1 && IsRealTime(bytes[0])
    case _ => false
  }

  function RealTimeEvents(es: seq<Event>): seq<Event> {
    Filter(e => IsRealTimeEvent(e), es)
  }

  function OtherEvents(es: seq<Event>): seq<Event> {
    Filter(e => !IsRealTimeEvent(e), es)
  }

  /** The one event of each real-time byte: six messages, and an error for F9 and FD. */
  function Answers(bytes: seq<Byte>): seq<Event> {
    seq(|bytes|, i requires 0 <= i < |bytes| => ToEvent(Decode([bytes[i]])))
  }

  lemma RealTimeStep(m: Mode, b: Byte)
    requires IsRealTime(b)
    ensures Step(m, b) == (m, Answers([b]))
    ensures IsRealTimeEvent(Answers([b])[0])
  {
    assert Answers([b]) == [ToEvent(Decode([b]))];
  }

  /** Packets the parser assembles are never real-time messages. */
  lemma AssembledNotRealTime(status: Byte, data: seq<Byte>)
    requires IsChannelStatus(status) || 0xF1 <= status <= 0xF3
    ensures !IsRealTimeEvent(Assembled(status, data))
  {
  }

  lemma StatusNotRealTime(m: Mode, b: Byte)
    requires Reachable(m) && IsStatus(b)
    ensures forall i | 0 <= i < |Step(m, b).1| :: !IsRealTimeEvent(Step(m, b).1[i])
  {
    StatusStep(m, b);
  }

  lemma DataNotRealTime(m: Mode, b: Byte)
    requires Reachable(m) && IsData(b)
    ensures forall i | 0 <= i < |Step(m, b).1| :: !IsRealTimeEvent(Step(m, b).1[i])
  {
    if m.Running? || m.Common? {
      AssembledNotRealTime(m.status, m.pending + [b]);
    }
  }

  lemma StepSeparates(m: Mode, b: Byte)
    requires Reachable(m)
    ensures IsRealTime(b) ==> Step(m, b) == (m, Answers([b])) && IsRealTimeEvent(Answers([b])[0])
    ensures !IsRealTime(b) ==> forall i | 0 <= i < |Step(m, b).1| :: !IsRealTimeEvent(Step(m, b).1[i])
  {
    if IsData(b) {
      DataNotRealTime(m, b);
    } else if IsStatus(b) {
      StatusNotRealTime(m, b);
    } else {
      RealTimeStep(m, b);
    }
  }

  /**
    Real-time transparency, from every reachable situation and wherever the real-time bytes are: the final
    situation and all other events are those of the stream without them, and each adds exactly its own event.
    */
  lemma {:induction false} RealTimeTransparent(m: Mode, bs: seq<Byte>)
    requires Reachable(m)
    ensures Run(m, bs).0 == Run(m, NonRealTime(bs)).0
    ensures OtherEvents(Run(m, bs).1) == Run(m, NonRealTime(bs)).1
    ensures RealTimeEvents(Run(m, bs).1) == Answers(RealTimeBytes(bs))
    decreases bs
  {
    hide Step, Run, IsRealTimeEvent, ToEvent, Decode, Reachable;
    if bs == [] {
      RunNil(m);
    } else {
      var b, rest := bs[0], bs[1..];
      var (m1, e1) := Step(m, b);
      StepReachable(m, b);
      StepSeparates(m, b);
      RealTimeTransparent(m1, rest);
      assert bs == [b] + rest;
      RunCons(m, b, rest);
      FilterConcat(e => IsRealTimeEvent(e), e1, Run(m1, rest).1);
      FilterConcat(e => !IsRealTimeEvent(e), e1, Run(m1, rest).1);
      FilterAll(e => IsRealTimeEvent(e), e1);
      FilterAll(e => !IsRealTimeEvent(e), e1);
      if IsRealTime(b) {
        assert NonRealTime(bs) == NonRealTime(rest);
        assert RealTimeBytes(bs) == [b] + RealTimeBytes(rest);
        assert Answers(RealTimeBytes(bs)) == e1 + Answers(RealTimeBytes(rest));
      } else {
        assert RealTimeBytes(bs) == RealTimeBytes(rest);
        assert NonRealTime(bs) == [b] + NonRealTime(rest);
        RunCons(m, b, NonRealTime(rest));
      }
    }
  }

  /** Where the answers stand: right where the byte was, before everything caused by later bytes. */
  lemma RealTimeInPlace(m: Mode, p: seq<Byte>, b: Byte, q: seq<Byte>)
    requires IsRealTime(b)
    ensures Run(m, p + [b] + q).0 == Run(m, p + q).0
    ensures Run(m, p + [b] + q).1 == Run(m, p).1 + Answers([b]) + Run(Run(m, p).0, q).1
    ensures Run(m, p + q).1 == Run(m, p).1 + Run(Run(m, p).0, q).1
  {
    assert p + [b] + q == p + ([b] + q);
    RunConcat(m, p, [b] + q);
    RunCons(Run(m, p).0, b, q);
    RunConcat(m, p, q);
    RealTimeStep(Run(m, p).0, b);
  }
}
