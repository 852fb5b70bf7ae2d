# Verified model of midi-io

A Dafny model of the logic of midi-io, a portable MIDI library: its message codec, its streaming parser, the
accounting of its inbound streams, its ALSA port registry, and two pieces of arithmetic (Web MIDI port handles and
CoreMIDI host times), with proofs of what each promises.

`dafny verify dfyconfig.toml` checks the project.

## How it is organised

| file | what it holds |
|---|---|
| `Bytes.dfy`, `Machines.dfy` | number types, sequence facts, running a machine that emits outputs |
| `Codec.dfy`, `Conformance.dfy` | messages, decoder, encoder, SysEx framing and their laws; the repository's byte corpus |
| `ParserMachine.dfy` | the stream parser as a pure machine over six situations |
| `StreamParsers.dfy` | the parser object with its eight fields, each method proved against the machine |
| `Segments.dfy` | the meaning of a byte stream without a machine, and the proof that the parser computes it |
| `RealTime.dfy`, `ParserLaws.dfy`, `ParserSafety.dfy` | what holds of every run of the parser |
| `InboundStreams.dfy`, `StreamSenders.dfy` | the overflow protocol step by step under interleaving, and the sender object |
| `InboundDelivery.dfy` | bytes pushed, decoded and emitted: what reaches the receivers |
| `PortDirectory.dfy`, `PortRegistry.dfy`, `PortRegistryObject.dfy` | caches, change logs and subscribers; the registry as a state machine; the registry object |
| `PortHandle.dfy`, `HostTime.dfy` | FNV-1a handles; host time conversion |

The parser is described three times. `StreamParser` updates eight fields byte by byte as the source does. The machine
`Step` says the same over the situations those fields can be in; `Valid` ties the two together, so no field ever holds
anything its situation does not use. `Segments.Meaning` says what a stream means without any state: drop the real-time
bytes, cut at status bytes, read each segment by its own rule, put the real-time answers back in place.
`ParserRefinesSegments` closes the chain for every byte string.

The registry object carries, for the proof only, how it started and the steps it has taken. Its `Valid` says that its
fields are what that history leads to; every handler keeps it, so every theorem about runs of the registry is one about
the object (`Guarantees`, `Links`), and the handlers' replies are stated by history.

Bytes are integers 0..255, so masks and shifts appear as division, remainder and sums of disjoint bits. Locks, the
kernel's answers, clocks and hash map orders are parameters of the step or method they influence.

## Where the code and its comments differ

The comment at `src/platform/common.rs:31` says old messages are dropped to make room for new ones. The code does the
opposite: a full queue refuses the new item. The model follows the code.

## What turned out false, and when it holds

- The overflow counter can go below zero (in the source: wrap around) exactly when two or more emitters share one
  `StreamSenders`: both load the counter before either subtracts. With one emitter, which is how every backend uses it,
  it never does (`UnderflowIffShared`).
- The stream parser and the one-shot decoder read a SysEx frame alike exactly when its body is 7-bit and has at most
  MAX + 1 bytes (`FrameReadAlike`, for every body). Beyond that length the decoder reports the real length and the
  parser always MAX + 1. With a byte of 80 or more in the body the decoder refuses the frame whole and the parser
  reacts to that byte, so they never agree; F0 90 F7 is such a frame (`FrameReadDifferently`).
- The registry's listing of its own virtual ports is exact after every step of a run exactly when no exit in that run
  is announced for a port of ours that is live at that moment (`OwnPortsRun`); a reused port number and a late
  announcement hide the new port (`StaleExitHidesPort`).
- A host time converts exactly if and only if its nanoseconds fit in 64 bits and the instant exists (`ExactIffFits`).
  On a clock with some eight seconds of room on both sides of the reference, later host times never give earlier
  instants if and only if the two extreme host times, 1 and 2^64 - 1, fit (`OrderIffExtremesFit`). It fails through the
  64-bit cast at the timebase 125/3 (`WrapBreaksOrder`) and at the end of every clock (`FallbackBreaksOrder`).

## Model

| member | source | states |
|---|---|---|
| Codec.JoinSplit | src/midi/pitch_bend.rs:11-37 | joining two data bytes into 14 bits and splitting gives the bytes back; song positions use the same formulas |
| Codec.SplitJoin | src/midi/song_position.rs:9-23 | splitting a 14-bit value and joining gives the value back |
| Codec.SignedBend | src/midi/pitch_bend.rs:15-29 | signed and raw bends correspond one to one and in the same order, 0 is the raw 0x2000, and exactly the values -8192..8191 are accepted |
| Codec.FirstHighBit | src/midi/sys_ex.rs:49-54 | the index found is that of the first byte that is not 7-bit, and none is found only when all are |
| Codec.SysExFrame | src/midi/sys_ex.rs:24-69 | the frame of any body is accepted with that very body, or refused as empty, as too long with its length, or at its first byte that is not 7-bit, which is named with its index |
| Codec.DecodeEncode | src/midi/decode.rs:18-160 | every message and SysEx decodes from its own encoding, a velocity-0 note-on as a note-off |
| Codec.FixedPoints | src/midi/decode.rs:116-132 | a value comes back unchanged exactly when it is not a velocity-0 note-on |
| Codec.DecodeAccepts | src/midi/decode.rs:52-95 | the accepted strings are precisely those that are one message: known status, exact length, 7-bit data, or a framed SysEx within the limit |
| Codec.DecodeRejects | src/midi/decode.rs:41-95 | each reason for refusal is given in exactly the situation it names, with the refused bytes or the real SysEx length |
| Codec.EncodeDecode | src/midi/raw_message.rs:52-96 | re-encoding an accepted string returns it, except that `9n k 00` becomes `8n k 00` |
| Codec.PrefixFree | src/midi/decode.rs:52-160 | no accepted string is a proper prefix of another |
| Codec.RawRoundTrip | src/midi/raw_message.rs:104-113 | a raw buffer yields a typed message exactly when it is one message and not a SysEx; otherwise the buffer itself is returned as the error |
| Conformance.CorpusConforms | src/midi/conformance.rs:7-100 | decoder, encoder and a fresh parser agree on every pinned byte pattern |
| ParserMachine.RunReachable | src/midi/stream_parser.rs:43-219 | the parser never leaves its six situations and their bounds on buffers |
| ParserMachine.StatusStep | src/midi/stream_parser.rs:56-128 | a status byte below F8 leads to the same situation from everywhere, after reporting what it interrupts |
| ParserMachine.ChunkingIrrelevant | src/midi/stream_parser.rs:43-44 | cutting the stream into packets anywhere changes nothing |
| StreamParsers.AbstractConcrete | src/midi/stream_parser.rs:12-21 | the eight fields obey their joint invariant, given field by field, exactly when they are the fields of a reachable situation, and the two determine each other |
| StreamParsers.StreamParser.constructor | src/midi/stream_parser.rs:30-41 | a new parser is idle with everything cleared |
| StreamParsers.StreamParser.Push | src/midi/stream_parser.rs:43-167 | pushing a chunk moves the fields and emits the events of the machine's run, and keeps the eight fields' invariant, both by situation and field by field |
| StreamParsers.StreamParser.PushByte | src/midi/stream_parser.rs:45-127 | one byte is one machine step; a real-time byte never decodes to SysEx |
| StreamParsers.StreamParser.PushInSysex | src/midi/stream_parser.rs:69-109 | accumulation, overflow, completion and interruption of a SysEx |
| StreamParsers.StreamParser.PushStatus | src/midi/stream_parser.rs:111-128 | status bytes outside a SysEx, with F7 joining an orphan run |
| StreamParsers.StreamParser.PushData | src/midi/stream_parser.rs:130-165 | data bytes outside a SysEx: system common, running status, orphans |
| StreamParsers.StreamParser.FlushOrphans | src/midi/stream_parser.rs:169-182 | a pending run is reported once with its true length and its prefix, and cleared |
| StreamParsers.StreamParser.StartStatus | src/midi/stream_parser.rs:184-187 | the status is in force and nothing is pending |
| StreamParsers.StreamParser.AbortSysex | src/midi/stream_parser.rs:189-206 | an interrupted SysEx is reported with its bytes, silently dropped if it had overflowed |
| StreamParsers.StreamParser.HandleSystemCommon | src/midi/stream_parser.rs:208-219 | running status is cancelled and the byte's own message, error or assembly begins |
| Segments.SplitCuts | src/midi/stream_parser.rs:56-165 | the cut of a stream has one leading segment and then one per status byte, loses no byte and keeps the order |
| Segments.CutIsUnique | src/midi/stream_parser.rs:56-165 | there is only one such cut |
| Segments.SegmentsParse | src/midi/stream_parser.rs:56-219 | without real-time bytes, the events are those of the segments, each read by the rule of its status |
| Segments.ParserRefinesSegments | src/midi/stream_parser.rs:43-219 | for every byte string a fresh parser emits exactly the declarative meaning of the stream |
| RealTime.RealTimeTransparent | src/midi/stream_parser.rs:45-54 | real-time bytes anywhere leave the final situation and all other events unchanged and add exactly their own events |
| RealTime.RealTimeInPlace | src/midi/stream_parser.rs:45-54 | a real-time byte's event stands exactly where the byte was |
| ParserLaws.HistoryIndependence | src/midi/stream_parser.rs:56-128 | after the same status byte, two parsers with any pasts behave identically on every continuation |
| ParserLaws.StatusAndData | src/midi/stream_parser.rs:111-165 | from any situation, a status byte and its data emit the interruption, the byte's own event and the segment's messages |
| ParserLaws.Resynchronises | src/midi/stream_parser.rs:43-167 | any well-formed message pushed from any situation is read, after the one error for an orphan run or SysEx it interrupts, if any; a channel message leaves its running status, a system one nothing, a real-time one disturbs nothing |
| ParserLaws.FirstByte | src/midi/stream_parser.rs:45-54 | a fresh parser answers one byte as the one-shot decoder does, unless it begins something longer; F4 and F5 come out as errors |
| ParserLaws.OrphanRuns | src/midi/stream_parser.rs:111-182 | stray data bytes are one error at the next status byte, with their true number and the first 64 of them; an F7 joins them, other status bytes keep their own event |
| ParserLaws.SysexLengths | src/midi/stream_parser.rs:56-109 | in numbers: 1..1048576 data bytes ended by F7 arrive whole, none is an error, more are one error saying 1048577, and another status byte gets all of them reported as unterminated |
| ParserLaws.SysexStream | src/midi/stream_parser.rs:56-109 | F0, a body and the status byte that ends it: one outcome, whatever came before |
| ParserLaws.SysexExact | src/midi/stream_parser.rs:56-109 | the same with real-time bytes among the data: whole body, one empty error, or exactly one too-long error |
| ParserLaws.FrameReadAlike | src/midi/stream_parser.rs:69-109 | for every body, parser and decoder agree on its frame exactly when the body is 7-bit and has at most MAX + 1 bytes |
| ParserLaws.FrameReadDifferently | src/midi/decode.rs:41-49 | F0 90 F7: the decoder refuses it whole, the parser reports an unterminated SysEx and a stray end |
| ParserLaws.RunningStatusEquivalence | src/midi/stream_parser.rs:147-159 | repeating or omitting a status byte between whole messages of that status makes no difference |
| ParserLaws.SequenceRoundTrip | src/midi/stream_parser.rs:43-167 | any list of values, encoded, joined and cut into any chunks, arrives as exactly that list with nothing pending |
| ParserLaws.CompressedRoundTrip | src/midi/stream_parser.rs:147-159 | the same holds when any permitted status bytes are left out by running status |
| ParserSafety.RunSound | src/midi/stream_parser.rs:46-158 | every emitted message survives its own encoding, every SysEx is 7-bit within bounds, and only six kinds of error occur |
| ParserSafety.OutputBound | src/midi/stream_parser.rs:56-219 | a parser never emits more events than it was given bytes |
| ParserSafety.DataConserved | src/midi/stream_parser.rs:93-206 | every data byte is, in order, in one emitted event, a dropped partial message, a discarded oversized SysEx or a buffer; a status byte drops at most one |
| InboundStreams.RunAccounted | src/platform/common.rs:67-142 | the accounting invariant holds after every step of every interleaving, a refused send and its counting being two steps |
| InboundStreams.OverflowAccounting | src/platform/common.rs:67-105 | with live receivers and any number of emitters, emitted items are received, queued, counted as dropped, reported or at this moment unsettled, at every step; what each receiver has, errors included, is an in-order part of what was sent to it |
| InboundStreams.AllAccepted | src/platform/common.rs:108-142 | over runs, an error queue that never refuses accepts every error sent to it, in order |
| InboundStreams.ReceiversDrain | src/platform/common.rs:36-42 | a receiver that takes what waits gets exactly that, in order, and the other streams do not notice |
| InboundStreams.SoloCounter | src/platform/common.rs:67-82 | with one emitter the counter is never negative and a report being made is the whole counter |
| InboundStreams.UnderflowIffShared | src/platform/common.rs:67-82 | the counter can underflow exactly when more than one emitter shares it |
| StreamSenderObjects.SendSettles | src/platform/common.rs:67-95 | a send of a message or a SysEx that goes through, with room for errors, reports exactly what had been dropped and leaves nothing unreported |
| StreamSenderObjects.EmitDelivers | src/platform/common.rs:67-142 | for every event, lock and queue: an error is queued if there is room and nothing else happens; a message or SysEx is queued, or counted as dropped exactly when its lock is taken or its queue full, and not when its receiver is gone; a report goes out exactly when a send got through and it can |
| StreamSenderObjects.StreamSenders.constructor | src/platform/common.rs:52-65 | a new channel is empty with nothing dropped |
| StreamSenderObjects.StreamSenders.ReportOverflow | src/platform/common.rs:67-82 | a report is the load, try-send and subtract steps of the protocol |
| StreamSenderObjects.StreamSenders.SendMessage | src/platform/common.rs:84-105 | a counted send of a message followed by its report |
| StreamSenderObjects.StreamSenders.SendSysex | src/platform/common.rs:84-105 | a counted send of a SysEx followed by its report |
| StreamSenderObjects.StreamSenders.Emit | src/platform/common.rs:130-142 | one decoded event is exactly its protocol steps, keeps the accounting invariant, and has the effect on the three queues and the counter that `EmitDelivers` states |
| StreamSenderObjects.StreamSenders.LifecycleError | src/platform/common.rs:108-114 | a lifecycle error is appended to the error queue exactly if its receiver is there and it has room, and changes nothing else |
| InboundDelivery.DeliveredInOrder | src/platform/alsa.rs:789-801 | bytes pushed in any chunks, every event emitted, everything else interleaved: receivers hold an in-order part of the messages, the SysEx and the errors the bytes mean; the number of missing messages and SysEx is the counter plus the reports, up to what is unsettled; errors all arrive if the error queue never refuses |
| InboundDelivery.HandleSysexData | src/platform/alsa.rs:789-792 | one call moves the parser by the machine's run, and its steps on the senders emit exactly the decoded events in order |
| PortDirectory.KeyIdRoundTrip | src/platform/alsa.rs:979-985 | port ids and client-port keys, negative numbers included, correspond one to one, the client in the upper half |
| PortDirectory.PruneSend | src/platform/common.rs:240-242 | the subscribers kept are those that listen, in order, each with the change and nothing else added to its inbox |
| PortDirectory.RemoveAllExact | src/platform/alsa.rs:368-387 | removing several distinct cached keys takes exactly those, each announced once in that order |
| PortDirectory.Converges | src/platform/common.rs:304-314 | replaying everything a subscription delivered over a later listing gives the current ports |
| PortRegistry.StartThenExit | src/platform/alsa.rs:345-366 | a started foreign port is listed under its own key, by its capabilities and with its name, each listing announced once; its exit takes away and announces exactly that; system, own and unknown ports are ignored |
| PortRegistry.ClientExitExact | src/platform/alsa.rs:368-387 | a departing client's cached ports, and no others, leave the caches, each announced removed once, whatever client threads do to the subscriber lists between two removals |
| PortRegistry.NoticeStep | src/platform/alsa.rs:326-334 | a connected source's stream is sent exactly one notice in the step in which its port leaves the cache, and none in any other step |
| PortRegistry.DestroyNoticeStep | src/platform/alsa.rs:554-564 | a virtual destination's stream is sent exactly one notice in the step in which it stops receiving, and none in any other step |
| PortRegistry.RunAnnounced | src/platform/alsa.rs:316-343 | after every run the announced changes add up to the caches and every open subscriber holds exactly what was announced since it joined |
| PortRegistry.NextHears | src/platform/common.rs:240-242 | a listening subscriber is still there after any step but its own hanging up, its inbox longer by exactly what the step announced |
| PortRegistry.RunHears | src/platform/alsa.rs:316-387 | over runs, one who does not hang up stays and is sent everything announced, in order |
| PortRegistry.HangUpForgets | src/platform/common.rs:240-242 | one who hangs up is sent nothing more and is forgotten by the next change announced |
| PortRegistry.SubscribeThenList | src/platform/common.rs:304-314 | for every interleaving, joining between two removals of one departing client included: one who subscribes, lists later and never hangs up is still subscribed, once, has been sent exactly what was announced since, and by replaying it over the listing gets the current ports |
| PortRegistry.LinkStep | src/platform/alsa.rs:418-479 | one step opens a link by a successful connect and closes it by a disconnect or, for sends, by the port leaving the cache |
| PortRegistry.LinkHistory | src/platform/alsa.rs:690-772 | over runs, a source connection, a recorded destination or a live destination is held exactly when its last connect is later than everything that ends it |
| PortRegistry.SendGate | src/platform/alsa.rs:719-725 | over runs, a send passes exactly when the last connect is later than the last disconnect and the last removal; it is refused as not found exactly when nothing is recorded, as disconnected otherwise |
| PortRegistry.RunVirtualPorts | src/platform/alsa.rs:480-564 | virtual ports are injective, receivers are exactly the virtual destinations, kinds are disjoint, own cached ports are live |
| PortRegistry.OwnPortsRun | src/platform/alsa.rs:362-387 | over runs from start-up, the listing of own ports is exact after every step exactly when no exit is announced for a live one |
| PortRegistry.StaleExitHidesPort | src/platform/alsa.rs:362-366 | the concrete run in which a late exit hides a live virtual source |
| PortRegistryObject.Registrar.constructor | src/platform/alsa.rs:297-314 | a registry starts valid, with the caches it was given, no history and nothing else |
| PortRegistryObject.Registrar.Guarantees | src/platform/alsa.rs:316-343 | whatever the history, announced changes and subscribers agree with the caches, and virtual ports are in order |
| PortRegistryObject.Registrar.Links | src/platform/alsa.rs:690-772 | whatever the history, each link of a key is held exactly when its last connect is later than everything that ends it |
| PortRegistryObject.Registrar.AddSource | src/platform/alsa.rs:316-319 | the cache gains the entry, the change is announced once, and exactly the listening subscribers are told |
| PortRegistryObject.Registrar.AddDestination | src/platform/alsa.rs:321-324 | the same for destinations |
| PortRegistryObject.Registrar.DropSource | src/platform/alsa.rs:326-334 | a cached source goes, its connection is notified, the removal is announced once and exactly the listening subscribers are told; an unknown key changes nothing |
| PortRegistryObject.Registrar.DropDestination | src/platform/alsa.rs:336-343 | a cached destination goes, its connection is marked, the removal is announced once and exactly the listening subscribers are told |
| PortRegistryObject.Registrar.HandlePortStart | src/platform/alsa.rs:345-360 | announcements of our own client and of the system change nothing; other ports are listed by capability under their name and announced once |
| PortRegistryObject.Registrar.HandlePortExit | src/platform/alsa.rs:362-366 | both sides drop the key and announce it once where it was listed |
| PortRegistryObject.Registrar.HandleClientExit | src/platform/alsa.rs:368-387 | exactly the client's ports leave both caches, each announced once, in whatever order the maps yield |
| PortRegistryObject.Registrar.LoseSources | src/platform/alsa.rs:375-377 | the first loop is one departure step for each key, in order |
| PortRegistryObject.Registrar.LoseDestinations | src/platform/alsa.rs:384-386 | the second loop is one departure step for each key, in order |
| PortRegistryObject.Registrar.ClientKeys | src/platform/alsa.rs:369-374 | the collected keys are exactly the client's cached keys, each once |
| PortRegistryObject.Registrar.HandleConnect | src/platform/alsa.rs:727-772 | already connected exactly when an earlier connect is still open; otherwise not found exactly when the port is missing or lacks the capability, the kernel's own error exactly when subscribing fails, accepted exactly when all works; a refusal changes nothing |
| PortRegistryObject.Registrar.HandleDisconnect | src/platform/alsa.rs:418-432 | unsubscribes exactly when an earlier connect is still open, and leaves none open |
| PortRegistryObject.Registrar.HandleConnectDestination | src/platform/alsa.rs:690-717 | already connected exactly when a recorded connection, live or not, is still there; otherwise the replies of `HandleConnect`; a refusal changes nothing, success lets sends through |
| PortRegistryObject.Registrar.HandleDisconnectDestination | src/platform/alsa.rs:465-479 | unsubscribes exactly when a connection, live or not, is recorded, and leaves none |
| PortRegistryObject.Registrar.HandleCreateVirtualSource | src/platform/alsa.rs:480-498 | a created port is listed under its name, announced once and indexed, and the id returned is the listed one; a kernel error is passed on and changes nothing |
| PortRegistryObject.Registrar.HandleDestroyVirtualSource | src/platform/alsa.rs:499-506 | a known virtual source loses its index and its listing, announced once; an unknown one changes nothing |
| PortRegistryObject.Registrar.HandleCreateVirtualDestination | src/platform/alsa.rs:507-539 | a requested unique id is refused as unsupported and a kernel error is passed on, either changing nothing; otherwise the port is listed under its name, announced once, indexed and receiving, and the id returned is the listed one |
| PortRegistryObject.Registrar.HandleDestroyVirtualDestination | src/platform/alsa.rs:554-564 | a known virtual destination stops receiving, its stream is sent one notice, and it leaves the listing, announced once; an unknown one changes nothing |
| PortRegistryObject.Registrar.ResolveOutput | src/platform/alsa.rs:719-725 | by history: open exactly when the last connect is later than the last disconnect and the port's last departure, not found exactly when nothing is recorded, disconnected otherwise |
| PortRegistryObject.Registrar.SubscribeToSources | src/platform/common.rs:304-308 | a subscriber joins the list with nothing delivered yet, at any point of the history |
| PortRegistryObject.Registrar.SubscribeToDestinations | src/platform/common.rs:310-314 | the same for destinations |
| PortRegistryObject.Registrar.DropSourceReceiver | src/platform/common.rs:240-242 | a dropped receiver makes exactly its own channel stop listening |
| PortRegistryObject.Registrar.DropDestinationReceiver | src/platform/common.rs:240-242 | the same for destinations |
| PortHandle.ComputeHandle | src/platform/web.rs:41-48 | the loop computes the FNV-1a hash of the id's bytes, with the published values for the empty id, "a" and "foobar" |
| PortHandle.LastByte | src/platform/web.rs:43-46 | undoing the last multiplication gives the handle of the id without its last byte, but for the low byte, whose bits differ exactly where the last byte has a one |
| PortHandle.XorBits | src/platform/web.rs:44 | exclusive or, bit by bit, of numbers of any size |
| PortHandle.RoundInjective | src/platform/web.rs:44-45 | a loop round loses neither the hash nor the byte |
| PortHandle.CommonSuffix | src/platform/web.rs:41-48 | ids with the same ending collide exactly when their beginnings do |
| PortHandle.OneByteApart | src/platform/web.rs:41-48 | ids of equal length differing in one byte never collide |
| HostTime.ExactIffFits | src/platform/coremidi.rs:75-119 | zero means now; a conversion is exact exactly when the nanoseconds fit in 64 bits and the instant exists; an instant that does not exist is replaced by the reference, a zero denominator by one |
| HostTime.RoundsTowardsReference | src/platform/coremidi.rs:75-119 | a host time that fits lies as many whole nanoseconds from the reference as its ticks make, rounded down, on either side |
| HostTime.MonotoneAndClose | src/platform/coremidi.rs:102-119 | on both sides of the reference later ticks are no earlier, and gaps are within a nanosecond of the converted gap |
| HostTime.OrderIffExtremesFit | src/platform/coremidi.rs:75-119 | on a clock with room around the reference, order holds over all nonzero host times exactly when 1 and 2^64 - 1 fit |
| HostTime.WrapBreaksOrder | src/platform/coremidi.rs:83 | at the timebase 125/3, on every clock with 2^64 ns left, the cast wraps at one known tick and time runs back there |
| HostTime.FallbackBreaksOrder | src/platform/coremidi.rs:106-118 | on every clock that host times can outlast, the tick after the last instant falls back to the reference |

## Left out

- The ALSA, CoreMIDI and Web MIDI calls, event loops, threads and wake-ups; the kernel's answers are inputs of the steps.
- `PlatformClient`, `Client`, connection wrappers and reply channels: plumbing over asynchronous libraries.
- The inside of `futures_channel::mpsc`: a queue here is a bounded FIFO of one fixed capacity that answers sent, full or disconnected; the extra slot the library grants each sender is not modelled.
- InboundStreams.OverflowAccounting: the drop counter is an unbounded integer; wrap-around after 2^64 drops is not modelled.
- InboundStreams.RunAccounted: the error lock is not tracked; every step that could find it taken may do so, and other senders may act at any time, which allows more interleavings than the lock does.
- Receivers inside the sender object: the `StreamSenders` object runs each call uninterrupted; interleaving is covered by the protocol.
- PortRegistry.NoticeStep: counts the notices sent; one that finds the stream's error queue full is lost, as `StreamSenders.LifecycleError` says.
- The choice of stream for a received sequencer event, and the parsers and senders stored in the registry: a connection is its key there, and what it does with its bytes is `InboundDelivery`.
- InboundDelivery.DeliveredInOrder: what it says of codec errors is for runs in which only the parser's events bring them; `route_error` may send others on the same stream, which the protocol's `OtherError` covers.
- InboundDelivery.HandleSysexData: the closure's calls on the senders are made after the push instead of inside it; the parser and the senders share no state.
- Listing replies: `ListSources` and `ListDestinations` return the cache's values; the model uses the cache itself.
- `build_cache`, capability bits and port names beyond the strings themselves.
- `control14_to_cc_pair`, `param_cc_messages`, `note_message` and the other conversions of ALSA events: branch by branch.
- `Display`, error conversions, logging, `Name`, `Channel` and `DataByte` as types of their own, the examples and the web synth.
- The identity of a subscription's channel is a number given in the order of joining.
- Fresh virtual ids and unused port numbers are assumed of the environment (`Possible`), as the id counter and the kernel provide them.
