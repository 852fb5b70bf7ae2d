/**
  The meaning of a byte stream, said without a state machine: delete the real-time bytes, cut the rest at its
  status bytes, and read each segment by the rule of its own status. The parser is proved to emit exactly this.
  */
module Segments {
  import opened Bytes
  import opened Codec
  import opened ParserMachine
  import opened RealTime

  /** A status byte and the data bytes that follow it. Only the first segment of a stream has no status. */
  datatype Segment = Segment(status: Option<Byte>, data: seq<Byte>)

  function Last<T>(xs: seq<T>): T
    requires |xs| > 0
  {
    xs[|xs| - 1]
  }

  function Init<T>(xs: seq<T>): seq<T>
    requires |xs| > 0
  {
    xs[..|xs| - 1]
  }

  // ---- Cutting --------------------------------------------------------------------------------

  function Split(bs: seq<Byte>): (segs: seq<Segment>)
    ensures |segs| > 0
  {
    if bs == [] then [Segment(None, [])]
    else
      var segs := Split(Init(bs));
      var b := Last(bs);
      Grow(segs, b)
  }

  /** The cut after one more byte. */
  function Grow(segs: seq<Segment>, b: Byte): (grown: seq<Segment>)
    requires |segs| > 0
    ensures |grown| > 0
  {
    if IsData(b) then ExtendLast(segs, b) else segs + [Segment(Some(b), [])]
  }

  function Extend(seg: Segment, b: Byte): Segment {
    Segment(seg.status, seg.data + [b])
  }

  function ExtendLast(segs: seq<Segment>, b: Byte): seq<Segment>
    requires |segs| > 0
  {
    Init(segs) + [Extend(Last(segs), b)]
  }

  function SegmentBytes(seg: Segment): seq<Byte> {
    (if seg.status.Some? then [seg.status.value] else []) + seg.data
  }

  /** The bytes of all segments, in order. */
  function Joined(segs: seq<Segment>): seq<Byte> {
    if segs == [] then [] else Joined(Init(segs)) + SegmentBytes(Last(segs))
  }

  /** A cut of a stream: one leading segment without status, data only between statuses. */
  predicate IsCut(segs: seq<Segment>) {
    && |segs| > 0
    && segs[0].status.None?
    && (forall k | 1 <= k < |segs| :: segs[k].status.Some? && !IsData(segs[k].status.value))
    && (forall k | 0 <= k < |segs| :: AllData(segs[k].data))
  }

  lemma ExtendCut(segs: seq<Segment>, b: Byte)
    requires IsCut(segs) && IsData(b)
    ensures IsCut(ExtendLast(segs, b)) && Joined(ExtendLast(segs, b)) == Joined(segs) + [b]
  {
    var longer := ExtendLast(segs, b);
    assert Init(longer) == Init(segs);
    assert SegmentBytes(Last(longer)) == SegmentBytes(Last(segs)) + [b];
    assert Joined(longer) == (Joined(Init(segs)) + SegmentBytes(Last(segs))) + [b];
  }

  lemma OpenCut(segs: seq<Segment>, b: Byte)
    requires IsCut(segs) && !IsData(b)
    ensures var longer := segs + [Segment(Some(b), [])];
            IsCut(longer) && Joined(longer) == Joined(segs) + [b]
  {
    var longer := segs + [Segment(Some(b), [])];
    assert Init(longer) == segs;
    assert SegmentBytes(Last(longer)) == [b];
  }

  lemma {:induction false} SplitCuts(bs: seq<Byte>)
    ensures IsCut(Split(bs)) && Joined(Split(bs)) == bs
  {
    if bs == [] {
      assert Joined(Split(bs)) == Joined([]) + [];
    } else {
      var segs, b := Split(Init(bs)), Last(bs);
      SplitCuts(Init(bs));
      assert bs == Init(bs) + [b];
      if IsData(b) {
        ExtendCut(segs, b);
      } else {
        OpenCut(segs, b);
      }
    }
  }

  lemma CutNothing()
    ensures Split([]) == [Segment(None, [])] && Joined([Segment(None, [])]) == []
  {
    assert Joined([Segment(None, [])]) == Joined([]) + [];
  }

  lemma SplitSnoc(bs: seq<Byte>, b: Byte)
    ensures Split(bs + [b]) == Grow(Split(bs), b)
  {
    assert Init(bs + [b]) == bs;
  }

  /** A stream can be cut in one way only, so `Split` is the cut. */
  lemma {:induction false} CutIsUnique(segs: seq<Segment>)
    requires IsCut(segs)
    ensures Split(Joined(segs)) == segs
    decreases |Joined(segs)|
  {
    hide Split, Joined;
    var seg := Last(segs);
    if seg.data != [] {
      var b := Last(seg.data);
      var shorter := Init(segs) + [Segment(seg.status, Init(seg.data))];
      assert Extend(Last(shorter), b) == seg;
      assert ExtendLast(shorter, b) == segs;
      ExtendCut(shorter, b);
      CutIsUnique(shorter);
      SplitSnoc(Joined(shorter), b);
    } else if |segs| > 1 {
      var b := seg.status.value;
      assert segs == Init(segs) + [Segment(Some(b), [])];
      OpenCut(Init(segs), b);
      CutIsUnique(Init(segs));
      SplitSnoc(Joined(Init(segs)), b);
    } else {
      assert segs == [Segment(None, [])];
      CutNothing();
    }
  }

  // ---- The rule of one segment ----------------------------------------------------------------

  /** The data bytes of a segment that belong to no message. */
  function Stray(seg: Segment): seq<Byte> {
    match seg.status
    case None => seg.data
    case Some(b) =>
      if b < 0xF1 then []
      else if b <= 0xF3 then (if |seg.data| >= Needed(b) then seg.data[Needed(b)..] else [])
      else seg.data
  }

  /** The events of the data: whole groups for a channel status, the first group for F1..F3, an oversized SysEx. */
  function Body(seg: Segment): seq<Event>
    requires seg.status.Some? ==> IsStatus(seg.status.value)
  {
    match seg.status
    case None => []
    case Some(b) =>
      if IsChannelStatus(b) then Groups(b, seg.data)
      else if b == 0xF0 then (if |seg.data| > MAX_SYSEX_BYTES then [TOO_LONG] else [])
      else if b <= 0xF3 then (if |seg.data| >= Needed(b) then [Assembled(b, seg.data[..Needed(b)])] else [])
      else []
  }

  /** Message k of a channel segment is made of the k-th group of data bytes. */
  function Groups(status: Byte, data: seq<Byte>): seq<Event>
    requires IsChannelStatus(status)
  {
    var n := Needed(status);
    seq(|data| / n, k requires 0 <= k < |data| / n => Assembled(status, Group(data, n, k)))
  }

  /** The k-th group of n data bytes; a channel message carries one or two. */
  function Group(data: seq<Byte>, n: nat, k: nat): seq<Byte>
    requires 1 <= n <= 2 && k < |data| / n
  {
    if n == 1 then [data[k]] else [data[2 * k], data[2 * k + 1]]
  }

  /** The data bytes after the last whole group. */
  function Partial(data: seq<Byte>, n: nat): seq<Byte>
    requires 1 <= n <= 2
  {
    if |data| % n == 0 then [] else [Last(data)]
  }

  /** An orphan error shows at most a fixed number of the run's bytes, but its true length. */
  function OrphanRun(run: seq<Byte>): Event {
    OrphanError(|run|, Shown(run))
  }

  function Shown(run: seq<Byte>): seq<Byte> {
    run[..Min(|run|, ORPHAN_PREFIX_BYTES)]
  }

  /** How the status byte after a segment ends it: what is emitted for what the segment left open. */
  function Closing(seg: Segment, next: Byte): seq<Event> {
    if seg.status == Some(0xF0) then
      if |seg.data| > MAX_SYSEX_BYTES then []
      else if next == 0xF7 then [SysexEnd(seg.data)]
      else [UnterminatedError(seg.data)]
    else if Stray(seg) == [] then []
    else if next == 0xF7 then [OrphanRun(Stray(seg) + [next])]
    else [OrphanRun(Stray(seg))]
  }

  /** The status byte's own event; an F7 has none if it ended a SysEx or joined an orphan run. */
  function Own(seg: Segment, next: Byte): seq<Event>
    requires IsStatus(next)
  {
    if next == 0xF7 && (seg.status == Some(0xF0) || Stray(seg) != []) then [] else Opening(next)
  }

  /** The events of a cut stream, segment by segment. */
  function SpecEvents(segs: seq<Segment>): seq<Event>
    requires Statuses(segs)
    decreases |segs|, 1
  {
    UpTo(Init(segs), Last(segs).status) + Body(Last(segs))
  }

  /** The events up to the status byte that follows `before`, that byte included. */
  function UpTo(before: seq<Segment>, status: Option<Byte>): seq<Event>
    requires before == [] || (Statuses(before) && status.Some? && IsStatus(status.value))
    decreases |before|, 2
  {
    if before == [] then []
    else SpecEvents(before) + Closing(Last(before), status.value) + Own(Last(before), status.value)
  }

  predicate Statuses(segs: seq<Segment>) {
    && |segs| > 0
    && segs[0].status.None?
    && forall k | 1 <= k < |segs| :: segs[k].status.Some? && IsStatus(segs[k].status.value)
  }

  /** What the parser is in the middle of after a segment. */
  function Situation(seg: Segment): Mode
    requires seg.status.Some? ==> IsStatus(seg.status.value)
  {
    match seg.status
    case None => Strays(seg.data)
    case Some(b) =>
      if IsChannelStatus(b) then Running(b, Partial(seg.data, Needed(b)))
      else if b == 0xF0 then (if |seg.data| > MAX_SYSEX_BYTES then Discarding else InSysex(seg.data))
      else if b <= 0xF3 && |seg.data| < Needed(b) then Common(b, seg.data)
      else Strays(Stray(seg))
  }

  function Strays(run: seq<Byte>): Mode {
    if run == [] then Idle else Orphans(|run|, Shown(run))
  }

  // ---- One more byte --------------------------------------------------------------------------

  predicate SegmentOk(seg: Segment) {
    && (seg.status.Some? ==> IsStatus(seg.status.value))
    && AllData(seg.data)
  }

  lemma SituationReachable(seg: Segment)
    requires SegmentOk(seg)
    ensures Reachable(Situation(seg))
  {
  }

  lemma CappedExtend(run: seq<Byte>, b: Byte)
    ensures Shown(run + [b]) == Capped(Shown(run), b)
  {
    if |run| < ORPHAN_PREFIX_BYTES {
      assert Shown(run + [b]) == run + [b];
      assert Shown(run) == run;
    } else {
      assert (run + [b])[..ORPHAN_PREFIX_BYTES] == run[..ORPHAN_PREFIX_BYTES];
    }
  }

  lemma StraysExtend(run: seq<Byte>, b: Byte)
    requires IsData(b)
    ensures Step(Strays(run), b) == (Strays(run + [b]), [])
  {
    CappedExtend(run, b);
    assert run == [] ==> Shown(run + [b]) == [b];
  }

  lemma GroupsExtend(status: Byte, data: seq<Byte>, b: Byte)
    requires IsChannelStatus(status)
    ensures var n := Needed(status);
            var pending := Partial(data, n) + [b];
            Groups(status, data + [b])
            == Groups(status, data) + if |pending| == n then [Assembled(status, pending)] else []
  {
    hide Assembled, Needed;
    var longer := data + [b];
    if Needed(status) == 1 {
      assert |longer| / 1 == |data| / 1 + 1 == |data| + 1;
      assert Group(longer, 1, |data|) == [b] == Partial(data, 1) + [b];
    } else if |data| % 2 == 0 {
      assert |longer| / 2 == |data| / 2;
    } else {
      assert |longer| / 2 == |data| / 2 + 1;
      assert Group(longer, 2, |data| / 2) == [Last(data), b] == Partial(data, 2) + [b];
    }
  }

  lemma ChannelExtend(seg: Segment, b: Byte)
    requires SegmentOk(seg) && seg.status.Some? && IsChannelStatus(seg.status.value) && IsData(b)
    ensures Step(Situation(seg), b).0 == Situation(Extend(seg, b))
    ensures Body(Extend(seg, b)) == Body(seg) + Step(Situation(seg), b).1
  {
    GroupsExtend(seg.status.value, seg.data, b);
  }

  /** A data byte extends the last segment, and the machine emits what the segment's body gains. */
  lemma DataExtends(seg: Segment, b: Byte)
    requires SegmentOk(seg) && IsData(b)
    ensures Step(Situation(seg), b).0 == Situation(Extend(seg, b))
    ensures Body(Extend(seg, b)) == Body(seg) + Step(Situation(seg), b).1
  {
    var data := seg.data;
    if seg.status.None? {
      StraysExtend(data, b);
    } else {
      var status := seg.status.value;
      if IsChannelStatus(status) {
        ChannelExtend(seg, b);
      } else if status == 0xF0 {
      } else if status <= 0xF3 {
        var n := Needed(status);
        if |data| + 1 <= n {
          assert (data + [b])[..|data| + 1] == data + [b];
          assert (data + [b])[|data| + 1..] == [];
        } else {
          assert (data + [b])[..n] == data[..n];
          assert (data + [b])[n..] == data[n..] + [b];
          StraysExtend(data[n..], b);
        }
      } else {
        StraysExtend(data, b);
      }
    }
  }

  /** What a segment leaves open is what the machine counts as interrupted by a status byte other than F7. */
  lemma ClosingInterrupts(seg: Segment, b: Byte)
    requires SegmentOk(seg) && IsStatus(b) && b != 0xF7
    ensures Closing(seg, b) == Interrupted(Situation(seg)) && Own(seg, b) == Opening(b)
  {
  }

  /** An F7 ends a SysEx, joins an orphan run, or stands alone. */
  lemma ClosingByEnd(seg: Segment)
    requires SegmentOk(seg)
    ensures Closing(seg, 0xF7) + Own(seg, 0xF7)
            == match Situation(seg)
               case Orphans(len, prefix) => [OrphanError(len + 1, Capped(prefix, 0xF7))]
               case InSysex(body) => [SysexEnd(body)]
               case Discarding => []
               case _ => Opening(0xF7)
  {
    CappedExtend(Stray(seg), 0xF7);
    assert Closing(seg, 0xF7) + [] == Closing(seg, 0xF7);
    assert [] + Own(seg, 0xF7) == Own(seg, 0xF7);
  }

  /** A status byte closes the last segment and opens an empty one. */
  lemma StatusCloses(seg: Segment, b: Byte)
    requires SegmentOk(seg) && IsStatus(b)
    ensures Step(Situation(seg), b) == (Situation(Segment(Some(b), [])), Closing(seg, b) + Own(seg, b))
    ensures Body(Segment(Some(b), [])) == []
  {
    SituationReachable(seg);
    StatusStep(Situation(seg), b);
    if b == 0xF7 {
      ClosingByEnd(seg);
    } else {
      ClosingInterrupts(seg, b);
    }
  }

  // ---- Whole streams --------------------------------------------------------------------------

  /** Data bytes after any segment: the situation is that of the longer segment, the events are what it gains. */
  lemma {:induction false} DataRun(seg: Segment, data: seq<Byte>)
    requires SegmentOk(seg) && AllData(data)
    ensures Run(Situation(seg), data).0 == Situation(Segment(seg.status, seg.data + data))
    ensures Body(Segment(seg.status, seg.data + data)) == Body(seg) + Run(Situation(seg), data).1
  {
    hide Step, Situation, Body;
    if data == [] {
      assert seg.data + data == seg.data;
    } else {
      var front, b := Init(data), Last(data);
      var mid := Segment(seg.status, seg.data + front);
      DataRun(seg, front);
      assert data == front + [b];
      RunSnoc(Situation(seg), front, b);
      DataExtends(mid, b);
      assert Extend(mid, b) == Segment(seg.status, seg.data + data);
    }
  }

  lemma SpecGrows(segs: seq<Segment>, grown: Segment, gain: seq<Event>)
    requires Statuses(segs)
    requires grown.status == Last(segs).status && Body(grown) == Body(Last(segs)) + gain
    ensures Statuses(Init(segs) + [grown])
    ensures SpecEvents(Init(segs) + [grown]) == SpecEvents(segs) + gain
  {
    assert Init(Init(segs) + [grown]) == Init(segs);
    var before := UpTo(Init(segs), grown.status);
    assert before + (Body(Last(segs)) + gain) == (before + Body(Last(segs))) + gain;
  }

  lemma SpecExtend(segs: seq<Segment>, b: Byte)
    requires Statuses(segs) && SegmentOk(Last(segs)) && IsData(b)
    ensures Statuses(ExtendLast(segs, b))
    ensures SpecEvents(ExtendLast(segs, b)) == SpecEvents(segs) + Step(Situation(Last(segs)), b).1
  {
    DataExtends(Last(segs), b);
    SpecGrows(segs, Extend(Last(segs), b), Step(Situation(Last(segs)), b).1);
  }

  lemma SpecOpen(segs: seq<Segment>, b: Byte)
    requires Statuses(segs) && SegmentOk(Last(segs)) && IsStatus(b)
    ensures Statuses(segs + [Segment(Some(b), [])])
    ensures SpecEvents(segs + [Segment(Some(b), [])]) == SpecEvents(segs) + Step(Situation(Last(segs)), b).1
  {
    StatusCloses(Last(segs), b);
    assert Init(segs + [Segment(Some(b), [])]) == segs;
  }

  lemma GrowParses(segs: seq<Segment>, b: Byte)
    requires IsCut(segs) && Statuses(segs) && !IsRealTime(b)
    ensures IsCut(Grow(segs, b)) && Statuses(Grow(segs, b))
    ensures Situation(Last(Grow(segs, b))) == Step(Situation(Last(segs)), b).0
    ensures SpecEvents(Grow(segs, b)) == SpecEvents(segs) + Step(Situation(Last(segs)), b).1
  {
    if IsData(b) {
      ExtendCut(segs, b);
      SpecExtend(segs, b);
      DataExtends(Last(segs), b);
    } else {
      OpenCut(segs, b);
      SpecOpen(segs, b);
      StatusCloses(Last(segs), b);
    }
  }

  lemma NothingParses()
    ensures IsCut(Split([])) && Statuses(Split([]))
    ensures Run(Idle, []) == (Situation(Last(Split([]))), SpecEvents(Split([])))
  {
    assert SpecEvents(Split([])) == [] + [];
  }

  /** A real-time-free stream parses to the events of its segments. */
  lemma {:induction false} SegmentsParse(bs: seq<Byte>)
    requires forall i | 0 <= i < |bs| :: !IsRealTime(bs[i])
    ensures IsCut(Split(bs)) && Statuses(Split(bs))
    ensures Run(Idle, bs) == (Situation(Last(Split(bs))), SpecEvents(Split(bs)))
  {
    hide Step, Situation, SpecEvents;
    if bs == [] {
      NothingParses();
    } else {
      var front, b := Init(bs), Last(bs);
      assert bs == front + [b];
      SegmentsParse(front);
      RunSnoc(Idle, front, b);
      SplitSnoc(front, b);
      GrowParses(Split(front), b);
    }
  }

  // ---- Merging the real-time events back ------------------------------------------------------

  /** Without real-time bytes every status of a cut is one that resets the parser. */
  lemma {:induction false} SplitStatuses(bs: seq<Byte>)
    requires forall i | 0 <= i < |bs| :: !IsRealTime(bs[i])
    ensures Statuses(Split(bs))
  {
    if bs == [] {
    } else {
      SplitStatuses(Init(bs));
    }
  }

  /** The segments of a stream whose real-time bytes are set aside. */
  function Cut(bs: seq<Byte>): (segs: seq<Segment>)
    ensures IsCut(segs) && Statuses(segs)
  {
    FilterKeeps(b => !IsRealTime(b), bs);
    SplitCuts(NonRealTime(bs));
    SplitStatuses(NonRealTime(bs));
    Split(NonRealTime(bs))
  }

  lemma CutParses(bs: seq<Byte>)
    ensures Run(Idle, bs).0 == Situation(Last(Cut(bs)))
    ensures Run(Idle, NonRealTime(bs)).1 == SpecEvents(Cut(bs))
  {
    RealTimeTransparent(Idle, bs);
    FilterKeeps(b => !IsRealTime(b), bs);
    SegmentsParse(NonRealTime(bs));
  }

  lemma CutGains(front: seq<Byte>, b: Byte)
    requires !IsRealTime(b)
    ensures SpecEvents(Cut(front + [b])) == SpecEvents(Cut(front)) + Step(Run(Idle, front).0, b).1
  {
    hide Step, SpecEvents, Situation, Split;
    CutParses(front);
    FilterConcat(x => !IsRealTime(x), front, [b]);
    assert NonRealTime(front + [b]) == NonRealTime(front) + [b];
    SplitSnoc(NonRealTime(front), b);
    GrowParses(Cut(front), b);
  }

  /** The part of `longer` beyond the length of `shorter`. */
  function Beyond<T>(shorter: seq<T>, longer: seq<T>): seq<T> {
    if |shorter| <= |longer| then longer[|shorter|..] else []
  }

  /** The stream's meaning: each real-time byte's answer in place, between what the segments gain byte by byte. */
  function Meaning(bs: seq<Byte>): seq<Event> {
    if bs == [] then []
    else if IsRealTime(Last(bs)) then Meaning(Init(bs)) + Answers([Last(bs)])
    else Meaning(Init(bs)) + Beyond(SpecEvents(Cut(Init(bs))), SpecEvents(Cut(bs)))
  }

  /**
    The parser refines the declarative reading: for every byte string, a fresh parser emits exactly its
    meaning, and is left in the situation of its last segment.
    */
  lemma {:induction false} ParserRefinesSegments(bs: seq<Byte>)
    ensures Run(Idle, bs) == (Situation(Last(Cut(bs))), Meaning(bs))
  {
    hide Step, Situation, SpecEvents, Cut;
    CutParses(bs);
    if bs == [] {
    } else {
      var front, b := Init(bs), Last(bs);
      assert bs == front + [b];
      ParserRefinesSegments(front);
      RunSnoc(Idle, front, b);
      if IsRealTime(b) {
        RealTimeStep(Run(Idle, front).0, b);
      } else {
        CutGains(front, b);
        assert Beyond(SpecEvents(Cut(front)), SpecEvents(Cut(bs))) == Step(Run(Idle, front).0, b).1;
      }
    }
  }
}
