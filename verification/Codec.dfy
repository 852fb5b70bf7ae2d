/**
  The one-shot codec: typed messages, `Decode`, the encoder and SysEx framing.
  Bytes are integers, so the source's shifts and masks are written as division, remainder and sum:
  `b & 0xF0 == 0x90` is `b / 16 == 9`, `b & 0x0F` is `b % 16`, `status | channel` is a sum of disjoint bits.
  */
module Codec {
  import opened Bytes

  const MAX_SYSEX_BYTES: nat := 1024 * 1024
  const ORPHAN_PREFIX_BYTES: nat := 64
  const PITCH_BEND_CENTER: int := 8192

  datatype MidiMessage =
    | NoteOn(channel: Channel, key: DataByte, velocity: DataByte)
    | NoteOff(channel: Channel, key: DataByte, velocity: DataByte)
    | ControlChange(channel: Channel, controller: DataByte, value: DataByte)
    | ProgramChange(channel: Channel, program: DataByte)
    | PitchBend(channel: Channel, bend: U14)
    | PolyKeyPressure(channel: Channel, key: DataByte, pressure: DataByte)
    | ChannelPressure(channel: Channel, pressure: DataByte)
    | MtcQuarterFrame(data: DataByte)
    | SongPositionPointer(position: U14)
    | SongSelect(song: DataByte)
    | TuneRequest
    | TimingClock
    | Start
    | Continue
    | Stop
    | ActiveSensing
    | Reset

  datatype ParseError =
    | Empty
    | Truncated
    | TrailingData
    | StandaloneSysexEnd
    | DataByteOutOfRange
    | ChannelOutOfRange
    | SysexDataOutOfRange
    | EmptySysex
    | UnterminatedSysex
    | UnrecognizedStatus
    | OrphanedData(len: nat)

  datatype CodecError =
    | Parse(reason: ParseError, bytes: seq<Byte>)
    | Unparseable(raw: RawMidiMessage)
    | SysexTooLong(len: nat, max: nat)

  datatype SysExError =
    | MissingStart
    | Unterminated
    | EmptyBody
    | TooLong(len: nat, max: nat)
    | HighBit(index: nat, byte: Byte)

  /** The body of a system exclusive message: what lies between F0 and F7. */
  type SysEx = body: seq<Byte> | 1 <= |body| <= MAX_SYSEX_BYTES && AllData(body) witness [0]

  datatype Decoded = Message(message: MidiMessage) | SysExMessage(sysex: SysEx)

  /** A fixed three-byte buffer of which the first `len` bytes are the message. */
  datatype RawMidiMessage = RawMidiMessage(bytes: seq<Byte>, len: nat)

  predicate ValidRaw(raw: RawMidiMessage) {
    |raw.bytes| == 3 && raw.len <= 3
  }

  function Slice(raw: RawMidiMessage): seq<Byte>
    requires ValidRaw(raw)
  {
    raw.bytes[..raw.len]
  }

  // ---- 14-bit values --------------------------------------------------------------------------

  function FromMsbLsb(msb: DataByte, lsb: DataByte): U14 { msb * 128 + lsb }

  function Lsb(v: U14): DataByte { v % 128 }

  function Msb(v: U14): DataByte { v / 128 % 128 }

  /** `None` stands for the source's range error. */
  function FromSigned(value: int): Option<U14> {
    if -PITCH_BEND_CENTER <= value < PITCH_BEND_CENTER then Some(value + PITCH_BEND_CENTER) else None
  }

  function Signed(v: U14): int { v - PITCH_BEND_CENTER }

  /** Splitting into data bytes and joining them are inverse, both ways round. */
  lemma JoinSplit(msb: DataByte, lsb: DataByte)
    ensures Msb(FromMsbLsb(msb, lsb)) == msb && Lsb(FromMsbLsb(msb, lsb)) == lsb
  {
    assert (msb * 128 + lsb) / 128 == msb;
  }

  lemma SplitJoin(v: U14)
    ensures FromMsbLsb(Msb(v), Lsb(v)) == v
  {
    assert v == v / 128 * 128 + v % 128;
  }

  /**
    Signed bends and raw bends correspond one to one and in the same order, 0 is the raw centre 0x2000, and nothing
    outside -8192..8191 is accepted.
    */
  lemma SignedBend(value: int, v: U14, w: U14)
    ensures FromSigned(Signed(v)) == Some(v)
    ensures FromSigned(value).Some? ==> Signed(FromSigned(value).value) == value
    ensures FromSigned(value).Some? <==> -8192 <= value <= 8191
    ensures Signed(v) < Signed(w) <==> v < w
    ensures Signed(0x2000) == 0
  {
  }

  // ---- SysEx framing --------------------------------------------------------------------------

  /** Index of the first byte with its high bit set. */
  function FirstHighBit(body: seq<Byte>, from: nat := 0): (r: Option<nat>)
    requires from <= |body|
    ensures r.Some? ==> from <= r.value < |body| && !IsData(body[r.value])
    ensures forall i | from <= i < (if r.Some? then r.value else |body|) :: IsData(body[i])
    decreases |body| - from
  {
    if from == |body| then None
    else if !IsData(body[from]) then Some(from)
    else FirstHighBit(body, from + 1)
  }

  function SysExNew(body: seq<Byte>): Result<SysEx, SysExError> {
    if body == [] then Err(EmptyBody)
    else if |body| > MAX_SYSEX_BYTES then Err(TooLong(|body|, MAX_SYSEX_BYTES))
    else
      match FirstHighBit(body)
      case Some(index) => Err(HighBit(index, body[index]))
      case None => Ok(body)
  }

  function SysExTryFrom(wire: seq<Byte>): Result<SysEx, SysExError> {
    if |wire| == 0 || wire[0] != 0xF0 then Err(MissingStart)
    else if |wire| < 2 || wire[|wire| - 1] != 0xF7 then Err(Unterminated)
    else SysExNew(wire[1..|wire| - 1])
  }

  /** The frame the source builds by pushing F0, the body and F7. */
  function SysExWire(body: seq<Byte>): seq<Byte> {
    [0xF0] + body + [0xF7]
  }

  function SysexDecodeError(err: SysExError, bytes: seq<Byte>): CodecError {
    match err
    case TooLong(len, max) => SysexTooLong(len, max)
    case MissingStart => Parse(UnrecognizedStatus, bytes)
    case Unterminated => Parse(UnterminatedSysex, bytes)
    case EmptyBody => Parse(EmptySysex, bytes)
    case HighBit(_, _) => Parse(SysexDataOutOfRange, bytes)
  }

  // ---- Decoding -------------------------------------------------------------------------------

  function ExpectedLen(status: Byte): Option<nat> {
    if status in {0xF6, 0xF8, 0xFA, 0xFB, 0xFC, 0xFE, 0xFF} then Some(1)
    else if status == 0xF1 || status == 0xF3 then Some(2)
    else if status == 0xF2 then Some(3)
    else if status in {0xF0, 0xF4, 0xF5, 0xF7, 0xF9, 0xFD} then None
    else
      var kind := status / 16;
      if kind in {0x8, 0x9, 0xA, 0xB, 0xE} then Some(3)
      else if kind == 0xC || kind == 0xD then Some(2)
      else None
  }

  function Decode(bytes: seq<Byte>): Result<Decoded, CodecError> {
    if bytes == [] then Err(Parse(Empty, bytes))
    else if bytes[0] == 0xF0 then
      match SysExTryFrom(bytes)
      case Ok(sysex) => Ok(SysExMessage(sysex))
      case Err(e) => Err(SysexDecodeError(e, bytes))
    else if bytes[0] == 0xF7 then Err(Parse(StandaloneSysexEnd, bytes))
    else
      match ExpectedLen(bytes[0])
      case None => Err(Parse(UnrecognizedStatus, bytes))
      case Some(len) =>
        if |bytes| < len then Err(Parse(Truncated, bytes))
        else if |bytes| > len then Err(Parse(TrailingData, bytes))
        else if len > 1 && !IsData(bytes[1]) then Err(Parse(DataByteOutOfRange, bytes))
        else if len > 2 && !IsData(bytes[2]) then Err(Parse(DataByteOutOfRange, bytes))
        else Ok(Message(Typed(bytes[0], bytes)))
  }

  /** The typed message for a packet of the right length whose data bytes are all 7-bit. */
  function Typed(status: Byte, bytes: seq<Byte>): MidiMessage
    requires ExpectedLen(status) == Some(|bytes|)
    requires |bytes| > 1 ==> IsData(bytes[1])
    requires |bytes| > 2 ==> IsData(bytes[2])
  {
    match status
    case 0xF1 => MtcQuarterFrame(bytes[1])
    case 0xF2 => SongPositionPointer(FromMsbLsb(bytes[2], bytes[1]))
    case 0xF3 => SongSelect(bytes[1])
    case 0xF6 => TuneRequest
    case 0xF8 => TimingClock
    case 0xFA => Start
    case 0xFB => Continue
    case 0xFC => Stop
    case 0xFE => ActiveSensing
    case 0xFF => Reset
    case _ =>
      var channel := status % 16;
      match status / 16
      case 0x8 => NoteOff(channel, bytes[1], bytes[2])
      case 0x9 => if bytes[2] == 0 then NoteOff(channel, bytes[1], 0) else NoteOn(channel, bytes[1], bytes[2])
      case 0xA => PolyKeyPressure(channel, bytes[1], bytes[2])
      case 0xB => ControlChange(channel, bytes[1], bytes[2])
      case 0xC => ProgramChange(channel, bytes[1])
      case 0xD => ChannelPressure(channel, bytes[1])
      case 0xE => PitchBend(channel, FromMsbLsb(bytes[2], bytes[1]))
      // The source's `unreachable!`: ExpectedLen is Some only for the statuses above.
      case _ => assert false; TuneRequest
  }

  // ---- Encoding -------------------------------------------------------------------------------

  function NewRaw(b0: Byte, b1: Byte, b2: Byte, len: nat): (raw: RawMidiMessage)
    requires len <= 3
    ensures ValidRaw(raw) && Slice(raw) == [b0, b1, b2][..len]
  {
    RawMidiMessage([b0, b1, b2], len)
  }

  function ToRaw(msg: MidiMessage): (raw: RawMidiMessage)
    ensures ValidRaw(raw)
  {
    match msg
    case NoteOff(ch, key, velocity) => NewRaw(0x80 + ch, key, velocity, 3)
    case NoteOn(ch, key, velocity) => NewRaw(0x90 + ch, key, velocity, 3)
    case PolyKeyPressure(ch, key, pressure) => NewRaw(0xA0 + ch, key, pressure, 3)
    case ControlChange(ch, controller, value) => NewRaw(0xB0 + ch, controller, value, 3)
    case ProgramChange(ch, program) => NewRaw(0xC0 + ch, program, 0, 2)
    case ChannelPressure(ch, pressure) => NewRaw(0xD0 + ch, pressure, 0, 2)
    case PitchBend(ch, bend) => NewRaw(0xE0 + ch, Lsb(bend), Msb(bend), 3)
    case MtcQuarterFrame(data) => NewRaw(0xF1, data, 0, 2)
    case SongPositionPointer(pos) => NewRaw(0xF2, Lsb(pos), Msb(pos), 3)
    case SongSelect(song) => NewRaw(0xF3, song, 0, 2)
    case TuneRequest => NewRaw(0xF6, 0, 0, 1)
    case TimingClock => NewRaw(0xF8, 0, 0, 1)
    case Start => NewRaw(0xFA, 0, 0, 1)
    case Continue => NewRaw(0xFB, 0, 0, 1)
    case Stop => NewRaw(0xFC, 0, 0, 1)
    case ActiveSensing => NewRaw(0xFE, 0, 0, 1)
    case Reset => NewRaw(0xFF, 0, 0, 1)
  }

  function Wire(d: Decoded): seq<Byte> {
    match d
    case Message(msg) => Slice(ToRaw(msg))
    case SysExMessage(body) => SysExWire(body)
  }

  function FromRaw(raw: RawMidiMessage): Result<MidiMessage, CodecError>
    requires ValidRaw(raw)
  {
    match Decode(Slice(raw))
    case Ok(Message(msg)) => Ok(msg)
    case _ => Err(Unparseable(raw))
  }

  // ---- Laws -----------------------------------------------------------------------------------

  /** What a value reads back as: a note-on with velocity 0 is a note-off, everything else is itself. */
  function Normal(d: Decoded): Decoded {
    match d
    case Message(NoteOn(ch, key, 0)) => Message(NoteOff(ch, key, 0))
    case _ => d
  }

  /** The byte strings that are exactly one MIDI message, said without the decoder. */
  predicate IsOneMessage(w: seq<Byte>) {
    && |w| > 0
    && if w[0] == 0xF0 then
         3 <= |w| <= MAX_SYSEX_BYTES + 2 && w[|w| - 1] == 0xF7 && AllData(w[1..|w| - 1])
       else
         ExpectedLen(w[0]) == Some(|w|) && AllData(w[1..])
  }

  /** SysEx framing and unframing are inverse. */
  lemma SysExRoundTrip(body: SysEx)
    ensures SysExTryFrom(SysExWire(body)) == Ok(body)
  {
    var wire := SysExWire(body);
    assert wire[1..|wire| - 1] == body;
  }

  /** The frame of any body: empty, too long, refused at its first byte that is not 7-bit, or accepted unchanged. */
  lemma SysExFrame(body: seq<Byte>)
    ensures var r := SysExTryFrom(SysExWire(body));
            && r == SysExNew(body)
            && (r == Err(EmptyBody) <==> body == [])
            && (r == Err(TooLong(|body|, MAX_SYSEX_BYTES)) <==> |body| > MAX_SYSEX_BYTES)
            && (r == Ok(body) <==> 1 <= |body| <= MAX_SYSEX_BYTES && AllData(body))
            && (forall i: nat, b: Byte :: r == Err(HighBit(i, b))
                  <==> i < |body| <= MAX_SYSEX_BYTES && AllData(body[..i]) && body[i] == b && !IsData(b))
  {
    var wire := SysExWire(body);
    assert wire[1..|wire| - 1] == body;
    if 1 <= |body| <= MAX_SYSEX_BYTES {
      match FirstHighBit(body)
      case Some(k) =>
        forall i | k < i <= |body|
          ensures !AllData(body[..i])
        {
          assert body[..i][k] == body[k];
        }
      case None =>
    }
  }

  lemma TypedEncode(msg: MidiMessage)
    ensures var w := Slice(ToRaw(msg));
            && |w| > 0 && w[0] != 0xF0 && ExpectedLen(w[0]) == Some(|w|)
            && (|w| > 1 ==> IsData(w[1])) && (|w| > 2 ==> IsData(w[2]))
            && Message(Typed(w[0], w)) == Normal(Message(msg))
  {
    match msg
    case PitchBend(_, v) => SplitJoin(v);
    case SongPositionPointer(v) => SplitJoin(v);
    case _ =>
  }

  /** Decode after encode: every value reads back as itself, up to velocity-0 note-ons. */
  lemma DecodeEncode(d: Decoded)
    ensures Decode(Wire(d)) == Ok(Normal(d))
  {
    match d
    case SysExMessage(body) => SysExRoundTrip(body);
    case Message(msg) => TypedEncode(msg);
  }

  /** A message survives the round trip exactly when it is not a velocity-0 note-on. */
  lemma FixedPoints(d: Decoded)
    ensures Decode(Wire(d)) == Ok(d) <==> !(d.Message? && d.message.NoteOn? && d.message.velocity == 0)
  {
    DecodeEncode(d);
  }

  /** The decoder accepts precisely the strings that are one message. */
  lemma DecodeAccepts(w: seq<Byte>)
    ensures Decode(w).Ok? <==> IsOneMessage(w)
  {
    if |w| > 0 && w[0] != 0xF0 && w[0] != 0xF7 && ExpectedLen(w[0]) == Some(|w|) {
      assert |w| > 1 ==> w[1..][0] == w[1];
      assert |w| > 2 ==> w[1..][1] == w[2];
    }
  }

  lemma EncodeTyped(w: seq<Byte>)
    requires |w| > 0 && ExpectedLen(w[0]) == Some(|w|)
    requires |w| > 1 ==> IsData(w[1])
    requires |w| > 2 ==> IsData(w[2])
    ensures Slice(ToRaw(Typed(w[0], w))) == if w[0] / 16 == 9 && w[2] == 0 then [w[0] - 16, w[1], 0] else w
  {
    if |w| == 3 { JoinSplit(w[2], w[1]); }
  }

  /** A byte string framed as a SysEx. */
  predicate IsFramed(w: seq<Byte>) {
    |w| >= 2 && w[0] == 0xF0 && w[|w| - 1] == 0xF7
  }

  /** Why a string is refused: each reason is given in exactly the situation it names, with the bytes it is about. */
  lemma DecodeRejects(w: seq<Byte>)
    ensures Decode(w).Err? ==> Decode(w).error == Parse(ReasonOf(w), w) || Decode(w).error.SysexTooLong?
    ensures Refused(w, Empty) <==> w == []
    ensures Refused(w, StandaloneSysexEnd) <==> w != [] && w[0] == 0xF7
    ensures Refused(w, UnrecognizedStatus) <==> w != [] && w[0] !in {0xF0, 0xF7} && ExpectedLen(w[0]).None?
    ensures Refused(w, Truncated)
            <==> w != [] && exists ext: seq<Byte> :: ext != [] && ExpectedLen(w[0]) == Some(|w + ext|)
    ensures Refused(w, TrailingData) <==> exists n | 0 < n < |w| :: ExpectedLen(w[0]) == Some(|w[..n]|)
    ensures Refused(w, DataByteOutOfRange) <==> w != [] && ExpectedLen(w[0]) == Some(|w|) && !AllData(w[1..])
    ensures Refused(w, UnterminatedSysex) <==> w != [] && w[0] == 0xF0 && !IsFramed(w)
    ensures Refused(w, EmptySysex) <==> w == [0xF0, 0xF7]
    ensures Refused(w, SysexDataOutOfRange)
            <==> IsFramed(w) && |w| - 2 <= MAX_SYSEX_BYTES && !AllData(w[1..|w| - 1])
    ensures |w| >= 2 && Decode(w) == Err(SysexTooLong(|w| - 2, MAX_SYSEX_BYTES))
            <==> IsFramed(w) && |w| - 2 > MAX_SYSEX_BYTES
  {
    if w != [] && ExpectedLen(w[0]).Some? {
      var len := ExpectedLen(w[0]).value;
      if |w| < len {
        assert |w + seq(len - |w|, _ => 0)| == len;
      } else if |w| > len {
        assert |w[..len]| == len;
      } else {
        assert |w| > 1 ==> w[1..][0] == w[1];
        assert |w| > 2 ==> w[1..][1] == w[2];
      }
    }
  }

  predicate Refused(w: seq<Byte>, reason: ParseError) {
    Decode(w) == Err(Parse(reason, w))
  }

  function ReasonOf(w: seq<Byte>): ParseError {
    match Decode(w)
    case Err(Parse(reason, _)) => reason
    case _ => Empty
  }

  /** Encode after decode: an accepted string is returned unchanged, except that `9n k 00` becomes `8n k 00`. */
  lemma EncodeDecode(w: seq<Byte>)
    requires Decode(w).Ok?
    ensures Wire(Decode(w).value)
            == if w[0] / 16 == 9 && w[2] == 0 then [w[0] - 16, w[1], 0] else w
  {
    DecodeAccepts(w);
    if w[0] == 0xF0 {
      assert w == [0xF0] + w[1..|w| - 1] + [0xF7];
    } else {
      EncodeTyped(w);
    }
  }

  /** No accepted string, of any length, is a proper prefix of another: streams can be cut only one way. */
  lemma PrefixFree(u: seq<Byte>, v: seq<Byte>)
    requires Decode(u).Ok? && Decode(v).Ok?
    requires u <= v
    ensures u == v
  {
    DecodeAccepts(u);
    DecodeAccepts(v);
  }

  /**
    Reading a raw buffer: a typed message comes back from its own encoding, and the buffer is refused
    exactly when its bytes are not one message or are a (one-byte-body) SysEx.
    */
  lemma RawRoundTrip(msg: MidiMessage, raw: RawMidiMessage)
    requires ValidRaw(raw)
    ensures FromRaw(ToRaw(msg)) == Ok(Normal(Message(msg)).message)
    ensures FromRaw(raw).Ok? <==> IsOneMessage(Slice(raw)) && Slice(raw)[0] != 0xF0
    ensures FromRaw(raw).Err? ==> FromRaw(raw).error == Unparseable(raw)
  {
    DecodeEncode(Message(msg));
    DecodeAccepts(Slice(raw));
  }
}
