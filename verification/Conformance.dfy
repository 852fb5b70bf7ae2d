/** The byte patterns the repository pins down for its codec and its stream parser. */
module Conformance {
  import opened Bytes
  import opened Codec
  import opened ParserMachine
  import opened ParserLaws

  datatype Entry = Entry(bytes: seq<Byte>, message: MidiMessage)

  const CHANNEL_VOICE: seq<Entry> := [
    Entry([0x90, 60, 100], NoteOn(0, 60, 100)),
    Entry([0x81, 62, 64], NoteOff(1, 62, 64)),
    Entry([0xA3, 64, 30], PolyKeyPressure(3, 64, 30)),
    Entry([0xB0, 7, 127], ControlChange(0, 7, 127)),
    Entry([0xC5, 42], ProgramChange(5, 42)),
    Entry([0xD7, 55], ChannelPressure(7, 55)),
    Entry([0xE0, 0x00, 0x40], PitchBend(0, 8192)),
    Entry([0xE2, 0x7F, 0x7F], PitchBend(2, 0x3FFF))]

  const SYSTEM: seq<Entry> := [
    Entry([0xF1, 0x35], MtcQuarterFrame(0x35)),
    Entry([0xF2, 0x68, 0x07], SongPositionPointer(1000)),
    Entry([0xF3, 0x12], SongSelect(0x12)),
    Entry([0xF6], TuneRequest),
    Entry([0xF8], TimingClock),
    Entry([0xFA], Start),
    Entry([0xFB], Continue),
    Entry([0xFC], Stop),
    Entry([0xFE], ActiveSensing),
    Entry([0xFF], Reset)]

  lemma VoiceDecodes(k: nat)
    requires k < |CHANNEL_VOICE|
    ensures Decode(CHANNEL_VOICE[k].bytes) == Ok(Message(CHANNEL_VOICE[k].message))
  {
  }

  lemma SystemDecodes(k: nat)
    requires k < |SYSTEM|
    ensures Decode(SYSTEM[k].bytes) == Ok(Message(SYSTEM[k].message))
  {
  }

  /** Decoder, encoder and a fresh stream parser agree with every entry, and the parser emits nothing else. */
  lemma CorpusConforms(entry: Entry)
    requires entry in CHANNEL_VOICE + SYSTEM
    ensures Decode(entry.bytes) == Ok(Message(entry.message))
    ensures Wire(Message(entry.message)) == entry.bytes
    ensures Run(Idle, entry.bytes).1 == [MessageEvent(entry.message)]
  {
    if entry in CHANNEL_VOICE {
      var k :| 0 <= k < |CHANNEL_VOICE| && CHANNEL_VOICE[k] == entry;
      VoiceDecodes(k);
    } else {
      var k :| 0 <= k < |SYSTEM| && SYSTEM[k] == entry;
      SystemDecodes(k);
    }
    EntryConforms(entry);
  }

  lemma EntryConforms(entry: Entry)
    requires Decode(entry.bytes) == Ok(Message(entry.message))
    requires entry.bytes[0] / 16 != 9 || entry.bytes[2] != 0
    ensures Wire(Message(entry.message)) == entry.bytes
    ensures Run(Idle, entry.bytes).1 == [MessageEvent(entry.message)]
  {
    hide Run, Wire;
    EncodeDecode(entry.bytes);
    Resynchronises(Idle, entry.bytes);
  }
}
