# moqlivecast transport core: a Dafny model

This project models the parts of the streaming stack that keep state of their own, and proves
what they promise over all inputs and all runs. Each part has two layers: a specification made
of datatypes and functions, about which the laws are proved, and a class or an array method
that works in place as the program does and is proved equal to it.

| part | modules |
|---|---|
| CRYPTO stream reassembly: byte buffer, bit-packed fill map, offsets; the sending side | `FillMap`, `CryptoStream`, `CryptoReceiver`, `CryptoSender` |
| moq-lite wire format and resumable parsers; the callbacks of subscribe and announce replies | `MoqWire`, `MoqParser`, `MoqStreamRecord`, `MoqSubscribeReplies`, `MoqAnnounceReplies` |
| a unidirectional stream through the session: records made and removed | `MoqUniSpec`, `MoqUniRecord` |
| moq-lite group writer, the groups of a track, and the way from publisher to subscriber | `MoqServeSpec`, `MoqTrackSpec`, `MoqServeRecord`, `MoqGroupRoundTrip` |
| 1-RTT packet assembler with its flush timer | `AssemblerSpec`, `AssemblerGates`, `AssemblerConn` |
| timer wheel | `TimerSpec`, `TimerEffects`, `TimerWheelRecord` |
| pacing token bucket | `PacingSpec`, `PacingRecord` |
| ACK tracking | `AckSpec`, `AckRecord` |
| following key updates | `KeyUpdateSpec`, `KeyUpdateRecord` |
| header protection | `HeaderProtection` |
| announcing broadcasts, up to the subscriber's reports | `MoqAnnounceSpec`, `MoqAnnounceDelivery`, `MoqAnnounceRecord` |
| pairing stream opens with their intents | `OpenIntentSpec`, `OpenIntentRecord` |
| QPACK header sections and printed literals | `QpackSpec`, `QpackRecord` |

`dafny verify dfyconfig.toml` checks everything.

What the program does not decide itself is an input: the answers of the congestion window, of
pacing and of the packet layer, the clock, whether sealing or deriving works, when a stream
opens, what a timer callback does. Sealing opens exactly under the generation and packet number
it was made with, HKDF takes a generation to the next, and the header protection cipher is an
arbitrary function of the sample. Balances of the token bucket are real numbers.

## Where the code falls short of its promise

The model follows the code. In these places a promise holds only under a condition; the member
named proves which, or gives the run that fails.

- CRYPTO, `CryptoStream.OnlyReceivedIff`, `CryptoStream.OverrunShowsZeros`,
  `CryptoStream.GapFillTakenIff`: for a stream longer than the 65536-byte buffer the contiguous
  offset can pass bytes that were not stored, TLS may then be shown zeros in their place, and a
  lost byte overtaken by later data stays lost.
- Groups, `MoqServeSpec.CloseMatchesIff`, `MoqServeSpec.TrackInStepIff`: closing a group whose
  stream is still opening drops its frames but leaves the queued open; a video key frame does
  that, and so does the end of a track, video or audio (`MoqServeSpec.EarlyEndLosesFrames`).
- Parsers, `MoqUniSpec.UniStableIff`, `MoqGroupRoundTrip.RefusedThenGood`: a stream that is
  refused before its last byte goes on with a new record at the next arrival, so the callbacks
  depend on how the bytes were cut. `MoqParser.ReplyStableIff`, `MoqParser.ReplyEndStableIff`,
  `MoqParser.MalformedSubscribeIsLate`: so they do behind a malformed message on a reply stream.
- Announce replies, `MoqAnnounceReplies.EndIsOwnIff`, `MoqAnnounceReplies.EndCrossesStreams`: broadcasts
  are numbered per stream, but an ANNOUNCE_END is looked up among the broadcasts of the whole
  session, so with two announce streams it can end those of the other.
- Timers, `TimerSpec.TickSafeIff`, `TimerSpec.OverflowIsUnsafe`: the 65th deferred free in a tick
  is not deferred, and a callback may run on what it freed.
- Pacing, `PacingSpec.TightIff`: the wait is too short for an unanchored bucket, for more bytes
  than the burst, and beyond the cap. quic/pacing_send.h says that a burst of 0 means the
  initial burst; the code computes one from the rate if that is not 0.
- ACKs, `AckSpec.RunCovers`: a packet that arrives below the block still pending is never
  acknowledged.
- Keys, `KeyUpdateSpec.RunCounts`: a failed trial zeroes the packet counters, also for a forged
  packet, and acknowledgements of a gap and CONNECTION_CLOSE are sealed without being counted
  (`KeyUpdateSpec.GapAckIsUncounted`). `KeyUpdateSpec.RunFollows`: the write side stays behind for good by each
  generation whose write keys could not be derived.
- Announcing, `MoqAnnounceSpec.StrayStartIff`, `MoqAnnounceDelivery.SubscriberHearsIff`: an
  ANNOUNCE_START can precede the ANNOUNCE_OK, which silences the whole stream, and reach a stream
  that is no announce stream.
- Opens, `OpenIntentSpec.SetupIsFirstIff`, `OpenIntentSpec.GroupMayGoFirst`: a comment says that
  SETUP is the first unidirectional stream; a group asked for early takes that place.
- QPACK, `QpackSpec.RoundTripIff`: values above 126 bytes do not come back. http3/qpack.h says
  that Huffman coding and indexed fields are not supported; the decoder takes both.

## Model

| member | source | states |
|---|---|---|
| `CryptoStream.RunIsFaithful` | quic/quic_connection.c:764-840 | For every run of frames cut from one stream of any length, lost, repeated, overlapping or reordered in any way, and any reads between them: TLS is handed, offset by offset, the byte of the stream if it was received when the read reached it, else a zero; and only offsets some frame brought are held |
| `CryptoStream.OnlyReceivedIff` | quic/quic_connection.c:1750-1854 | For every such run: all that TLS was handed had been received, and is the front of the stream, exactly if no read went past the first offset missing at that moment |
| `CryptoStream.NoOverrunIsClean` | quic/quic_connection.c:1756-1784 | No read does while no frame overran the buffer, that is, continued a buffer shown to its end without room for the frame: the contiguous offset is then the first one missing |
| `CryptoStream.SmallStreamIsSafe` | quic/quic_connection.c:1756-1842 | On a stream of at most 65536 bytes no schedule overruns the buffer or leaves a gap up to behind the window, and everything that arrived is held |
| `CryptoStream.AllArrivedAllAvailable` | quic/quic_connection.c:764-797 | Once the first n bytes of a stream of at most 65536 have arrived, in whatever pieces, TLS can have all of them |
| `CryptoStream.InOrderIsFed` | quic/quic_connection.c:764-840 | A stream of any length that arrives in order, no frame longer than the window, and is read after each: TLS is handed all of it |
| `CryptoStream.GapFillTakenIff` | quic/quic_connection.c:1790-1812 | A frame that fills a gap below the buffered end is taken exactly when its absolute end is at most the buffer size, 65536 as long as the buffer was not grown, however far the window has moved |
| `CryptoStream.NextTakenIff` | quic/quic_connection.c:1756-1784 | A byte of a frame at or behind the buffered end is taken exactly if TLS did not take its offset yet and, where the frame continues the end, the frame ends inside the window |
| `CryptoStream.OverrunShowsZeros` | quic/quic_connection.c:1756-1842 | After an overrun a later gap frame that reaches past the lost one makes TLS be shown zeros for the lost bytes, none of which was received |
| `CryptoReceiver.CryptoLevel.Feed` | quic/quic_connection.c:1750-1854 | One frame on the real buffer, fill map and offsets equals the step of the specification in every state, also where the contiguous offset moves on over bytes not stored |
| `CryptoReceiver.CryptoLevel.Recv` | quic/quic_connection.c:764-797 | The buffered bytes below the contiguous offset are shown, each one the byte received for its offset or a zero |
| `CryptoReceiver.CryptoLevel.Release` | quic/quic_connection.c:799-840 | Buffer and fill map move down together and still show exactly what was received |
| `CryptoReceiver.CryptoLevel.ContigScan` | quic/quic_connection.c:1581-1589 | The contiguous offset moves to the first offset at or above it that is missing |
| `CryptoReceiver.Drive` | quic/quic_connection.c:764-840 | Any schedule of arrivals and reads, run on the real buffers, equals the run of the specification, as long as no frame leaves a gap up to behind the window |
| `CryptoReceiver.DropMirrors` | quic/quic_connection.c:808-832 | Dropping n entries of the map and moving the bytes down mirrors the same received set behind the new offset |
| `FillMap.FillMap.Set` | quic/quic_connection.c:1569-1573 | Exactly the flags of the range become set |
| `FillMap.FillMap.Test` | quic/quic_connection.c:1574-1578 | Reads one flag of the packed map |
| `FillMap.FillMap.Drop` | quic/quic_connection.c:809-826 | Moving whole bytes and then shifting the rest of the bits removes exactly n flags in front and adds clear ones behind |
| `FillMap.ShiftedFlags` | quic/quic_connection.c:819-826 | The in-place right shift with carry from the next byte drops r flags, 0 < r < 8 |
| `FillMap.MovedFlags` | quic/quic_connection.c:812-818 | Moving s bytes down and clearing the tail drops 8 s flags |
| `FillMap.DroppedTwice` | quic/quic_connection.c:809-826 | Dropping in two steps is dropping the sum |
| `CryptoSender.Sender.Send` | quic/quic_connection.c:674-731 | Whatever the packet layer answers, every frame sent is a slice of the TLS output at its own offset, the frames lie back to back, all but the last are of the largest size, and a refusal takes back the whole offer and leaves it marked as pending |
| `CryptoSender.TilesAreCut` | quic/quic_connection.c:674-731 | Such frames are slices of the stream and together miss no byte of it |
| `MoqWire.VarintRoundTrip` | moqlite/moq_lite_wire.c:64-121 | Reading what was written gives back the integer and its length, for every value below 2^62 and whatever follows |
| `MoqWire.VarintPrefix` | moqlite/moq_lite_wire.c:106-121 | An integer read from a prefix is read the same from the whole |
| `MoqWire.VarintIsShortest` | moqlite/moq_lite_wire.c:71-121 | The encoding written is the shortest that reads as its integer |
| `MoqWire.VarintSamples` | moqlite/moq_lite_wire.c:64-121 | The sample encodings of Appendix A.1 of RFC 9000, both ways |
| `MoqWire.LongVarintSample` | moqlite/moq_lite_wire.c:64-121 | The eight-byte one of these samples |
| `MoqWire.ZigzagRoundTrip` | moqlite/moq_lite_wire.c:130-147 | Decoding an encoded difference gives it back; encoding fails exactly outside the 62-bit range |
| `MoqWire.StrRoundTrip` | moqlite/moq_lite_wire.c:148-171 | A written string reads back with its length, whatever follows |
| `MoqWire.MsgRoundTrip` | moqlite/moq_lite_wire.c:185-205 | A built message is cut out again exactly, whatever follows |
| `MoqWire.MsgPrefix` | moqlite/moq_lite_wire.c:185-196 | A message that is complete, or already too large, stays what it is when more bytes arrive |
| `MoqWire.WireSamples` | moqlite/moq_lite_wire.c:64-288 | The bytes of one difference, string, message, group header, frame and reply each |
| `MoqWire.NeedMoreIsShort` | moqlite/moq_lite_wire.c:185-196 | An incomplete message is shorter than 64 MiB + 8 bytes |
| `MoqWire.MoqBuf.WriteVarint` | moqlite/moq_lite_wire.c:71-105 | The byte loop appends the whole integer or, above 2^62 - 1, nothing |
| `MoqWire.MoqBuf.WriteFrame` | moqlite/moq_lite_wire.c:279-288 | Appends one frame, or nothing at all when the difference cannot be encoded |
| `MoqWire.MoqBuf.WriteGroupHeader` | moqlite/moq_lite_wire.c:268-278 | Appends the group header, or nothing |
| `MoqWire.MoqBuf.Consume` | moqlite/moq_lite_client.c:945-950 | Drops the first n bytes, or everything |
| `MoqWire.VarintRead` | moqlite/moq_lite_wire.c:106-121 | The byte loop returns the value and moves the offset, or leaves it alone when bytes are missing |
| `MoqParser.StepPrefix` | moqlite/moq_lite_client.c:952-1260 | Whatever one parsing step decides it decides the same with more bytes behind |
| `MoqParser.DrainPrefix` | moqlite/moq_lite_client.c:952-1260 | Parsing what is there and then the rest is parsing everything at once |
| `MoqParser.QuiescentIsSmall` | moqlite/moq_lite_client.c:2206-2214 | What a parser leaves buffered is at most 64 MiB + 15 bytes |
| `MoqParser.BadHeaderIsRefused` | moqlite/moq_lite_client.c:952-985 | A group header that is not exactly three integers is refused with a reset, and the record is done |
| `MoqParser.OversizeIsRefused` | moqlite/moq_lite_client.c:2206-2214 | So are a message above 64 MiB and an arrival that takes the buffer above its limit |
| `MoqParser.ChunksAreOne` | moqlite/moq_lite_client.c:1940-2012 | However the bytes are cut, as long as no arrival takes the buffer above the receive limit and the parser does not halt, the record ends as if they had come at once |
| `MoqParser.ChunkIndependence` | moqlite/moq_lite_client.c:2191-2257 | Two such ways of cutting the same bytes give the same callbacks, before and after the end of the stream |
| `MoqParser.SafeChunksFit` | moqlite/moq_lite_client.c:2206-2214 | Chunks of at most 1009 bytes never reach the receive limit, however many there are |
| `MoqParser.ReplyStableIff` | moqlite/moq_lite_client.c:1043-1260 | On an announce or subscribe reply stream, any bytes within the receive limit: all ways of cutting them into nonempty arrivals make the same callbacks exactly if the parser does not halt before the last byte, or what lies behind the halt makes no callback when it is parsed |
| `MoqParser.AnnounceStableIff` | moqlite/moq_lite_client.c:1043-1187 | On an announce reply stream exactly if the parser does not halt before the last byte: the refused message stays and every later arrival asks for a reset again |
| `MoqParser.ReplyEndStableIff` | moqlite/moq_lite_client.c:2238-2257 | With the end of the stream behind the bytes, which brings an arrival of no bytes and the notice: exactly if the parser does not halt before the last byte, or what lies behind the halt makes no callback any more once it was parsed twice |
| `MoqParser.AnnounceEndStableIff` | moqlite/moq_lite_client.c:1043-1187 | On an announce reply stream that is ended, again exactly if the parser does not halt before the last byte |
| `MoqParser.EndRemovesIff` | moqlite/moq_lite_client.c:1043-1260 | A reply record goes with the end of its stream exactly if the parser does not halt, and the end makes no callback |
| `MoqParser.CStringIsFront` | moqlite/moq_lite_wire.c:172-179 | A string of the wire is kept up to its first NUL |
| `MoqParser.ExactThree` | moqlite/moq_lite_client.c:1234-1237 | A body of three integers with anything behind it, or anything missing, is malformed |
| `MoqParser.ExactAnnounceStart` | moqlite/moq_lite_client.c:1107-1122 | So is the body of a start with its suffix, hops and costs |
| `MoqParser.MalformedSubscribeIsLate` | moqlite/moq_lite_client.c:1251-1256 | A concrete subscribe reply on which the callbacks depend on the cut |
| `MoqUniSpec.TypeIsRead` | moqlite/moq_lite_client.c:1940-1965 | A stream of the setup type is over with its type and makes no callback, whatever follows; every other type is that of a group |
| `MoqUniSpec.EndIsReportedIff` | moqlite/moq_lite_client.c:1990-2012 | The end of a stream is reported, once and behind all its frames, exactly if its header has come |
| `MoqUniSpec.OverflowSilences` | moqlite/moq_lite_client.c:2206-2214 | An arrival that takes the buffer above its limit is refused with a reset, and nothing that comes behind it is heard |
| `MoqUniSpec.UniStableIff` | moqlite/moq_lite_client.c:2191-2257 | On a unidirectional stream, any bytes within the receive limit, with or without its end: all ways of cutting them into nonempty arrivals make the same callbacks exactly if no record that starts behind the point where the stream was refused, or typed as a setup, makes a callback |
| `MoqUniSpec.NotStoppedIsStable` | moqlite/moq_lite_client.c:2191-2257 | In particular when the stream is not refused, nor typed as a setup, before its last byte |
| `MoqUniSpec.LinkIsRecord` | moqlite/moq_lite_client.c:2191-2257 | While nothing stops the record, of a stream of any length, what the session hears is what the one record does |
| `MoqUniSpec.CutsAgree` | moqlite/moq_lite_client.c:2191-2257 | Such a cut makes exactly the callbacks of one record that is given the bytes at once |
| `MoqUniRecord.UniStream.OnStreamData` | moqlite/moq_lite_client.c:2191-2225 | One arrival in place: a record is made if there is none, and removed when it is done; a record that hit the limit stays |
| `MoqUniRecord.UniStream.OnStreamFin` | moqlite/moq_lite_client.c:2238-2257 | The end of the stream in place; without a record it is ignored |
| `MoqUniRecord.UniStream.RemoveIfDone` | moqlite/moq_lite_client.c:621-632 | The record goes away exactly when it is done, its callbacks stay made |
| `MoqSubscribeReplies.RepliesAreHeard` | moqlite/moq_lite_client.c:1194-1260 | For every list of subscribe replies (start, end, drop, unknown types), written back to back and cut in any way within the receive limit: the callbacks made are exactly those of the replies, one each, in order, with every field in its place, and none for an unknown type |
| `MoqSubscribeReplies.ReplyIsRead` | moqlite/moq_lite_client.c:1194-1260 | One reply, whatever was parsed before it |
| `MoqSubscribeReplies.MalformedIsRefused` | moqlite/moq_lite_client.c:1251-1256 | A reply whose fields are not exactly the expected integers is consumed, asks for a reset and makes no other callback |
| `MoqSubscribeReplies.AcceptanceIsHeard` | moqlite/moq_lite_client.c:1208-1222 | What the publisher writes when it accepts is the acceptance, with its group |
| `MoqAnnounceReplies.MessagesAreHeard` | moqlite/moq_lite_client.c:1043-1187 | For every answer and list of messages behind it (start with any hops and costs, end, unknown types), cut in any way within the receive limit: exactly the reports of those messages, in order; a start reports its path, and ANNOUNCE_END n the end of the n-th broadcast started on the stream, once, and of those other streams of the session hold under that number |
| `MoqAnnounceReplies.EndIsOwnIff` | moqlite/moq_lite_client.c:1150-1180 | An ANNOUNCE_END concerns its own stream only exactly if no other announce stream has a broadcast of that number alive, or one with that number came before |
| `MoqAnnounceReplies.EndCrossesStreams` | moqlite/moq_lite_client.c:1150-1180 | Nothing was started on this stream, and still the end of a broadcast of another one is reported |
| `MoqAnnounceReplies.MalformedIsKept` | moqlite/moq_lite_client.c:1100-1180 | A message with other fields than expected stays in the buffer and only asks for a reset |
| `MoqAnnounceReplies.TooManyHops` | moqlite/moq_lite_client.c:1104-1125 | A start with more than 32 hops is such a message |
| `MoqStreamRecord.MsgReadAt` | moqlite/moq_lite_wire.c:185-196 | The message read at an offset is the message of the rest |
| `MoqStreamRecord.MoqStream.StreamParse` | moqlite/moq_lite_client.c:1940-2012 | The loop over the record in place computes the parser function, of which MoqSubscribeReplies, MoqAnnounceReplies and MoqGroupRoundTrip say which callbacks it makes |
| `MoqStreamRecord.MoqStream.OnData` | moqlite/moq_lite_client.c:2191-2225 | One arrival: limit check, append, parse |
| `MoqStreamRecord.MoqStream.OnFin` | moqlite/moq_lite_client.c:2238-2257 | The end of the stream |
| `MoqStreamRecord.MoqStream.Receive` | moqlite/moq_lite_client.c:2191-2257 | A whole delivery, no arrival of which goes above the receive limit, makes the callbacks of the bytes taken at once |
| `MoqServeSpec.StepMatches` | moqlite/moq_lite_client.c:1533-1713 | Each write, completed open and close keeps streams, waiting frames and group number equal to what the requests so far call for; a frame offered while 64 wait is not taken |
| `MoqServeSpec.RunMatches` | moqlite/moq_lite_client.c:1533-1713 | The same over every run in which no group is closed while its stream is opening |
| `MoqServeSpec.AcceptedOnce` | moqlite/moq_lite_client.c:1584-1630 | Over every run the subscription is accepted, once and with group 0, exactly when its first stream has opened |
| `MoqServeSpec.CloseMatchesIff` | moqlite/moq_lite_client.c:1666-1690 | Closing keeps the writer in step exactly when the stream of the group is not still on its way |
| `MoqServeSpec.EarlyCloseSplitsGroup` | moqlite/moq_lite_client.c:1667-1672 | What follows otherwise: two opens for one group number, the frame on the first stream, the writer left with the second, the first never finished |
| `MoqServeSpec.LoneHeaderIsMarked` | moqlite/moq_lite_client.c:1666-1690 | A group closed before its stream came and again behind it holds no frame, and its marker says when it was begun |
| `MoqServeSpec.UnwritableMovesBaseline` | moqlite/moq_lite_client.c:1533-1552 | A frame that cannot be encoded leaves nothing on the stream, but the next difference counts from its time stamp |
| `MoqServeSpec.Int64IsWrapped` | moqlite/moq_lite_client.c:1533-1552 | A time stamp is taken as its 64-bit two-complement value |
| `MoqServeSpec.TrackInStepIff` | moqlite/moq_lite_client.c:2825-2883 | Over every run of a track, audio or video, with held frames replayed, opens completing and the track ending at any point: at every point the streams are what the frames taken call for, exactly if neither a video key frame nor the end of the track comes while the stream of a group is still opening |
| `MoqServeSpec.AudioInStepIff` | moqlite/moq_lite_client.c:2846-2883 | For audio exactly if the end of the track does not find a stream opening; so without condition until the track ends |
| `MoqServeSpec.EarlyCloseSplits` | moqlite/moq_lite_client.c:1666-1673 | After such a close no request history accounts for the state |
| `MoqServeSpec.EarlyEndLosesFrames` | moqlite/moq_lite_client.c:2872-2883 | From every matching state: a track that ends while a stream is opening loses the frames that waited, and once the open completes a header stays alone on a stream never finished, whatever follows |
| `MoqServeSpec.FirstFrameOpens` | moqlite/moq_lite_client.c:2846-2853 | An audio track comes to that point with its first frame |
| `MoqTrackSpec.VideoFrame` | moqlite/moq_lite_client.c:2837-2845 | In every state in step, what one video frame does to the frames asked for: a key frame begins a group; any other goes on with the group, and is dropped exactly if none has begun or 64 wait for their stream |
| `MoqTrackSpec.AudioFrame` | moqlite/moq_lite_client.c:2846-2853 | An audio frame begins a group exactly if there is none, or the stream is open and a second has gone by since the first frame of the group; else it goes on with the group |
| `MoqTrackSpec.VideoGroups` | moqlite/moq_lite_client.c:2825-2883 | Over every run of a video track, held frames replayed, opens completing and the track ending at any point, in which no group is closed while its stream opens: its groups are its frames split at the key frames |
| `MoqTrackSpec.SplitIsAtKeys` | moqlite/moq_lite_client.c:2837-2845 | Splitting loses, doubles and moves nothing but the frames in front of the first group, and the groups begin with exactly the key frames, or the first held frame |
| `MoqTrackSpec.AudioGroups` | moqlite/moq_lite_client.c:2846-2883 | Over every run of an audio track whose end finds no stream opening, held frames first: the groups in order hold exactly the frames there was room for, and the current one is over a second behind its first frame |
| `MoqTrackSpec.ReplayedFrame` | moqlite/moq_lite_client.c:2812-2820 | A held frame goes on with the group or begins one, and leaves the time of the next group alone |
| `MoqTrackSpec.OtherEvent` | moqlite/moq_lite_client.c:2872-2883 | A completed open asks for nothing, the end of the track closes its group, and behind the end nothing is taken |
| `MoqServeRecord.ServeSub.WriteMedia` | moqlite/moq_lite_client.c:1691-1713 | A frame is written, or waits, or asks for a stream, in place |
| `MoqServeRecord.ServeSub.OpenOnStream` | moqlite/moq_lite_client.c:1584-1630 | A completed open writes type and header and all that waited |
| `MoqServeRecord.ServeSub.GroupClose` | moqlite/moq_lite_client.c:1666-1690 | The marker and the end of the stream; the group number moves on |
| `MoqServeRecord.ServeSub.TrackFrame` | moqlite/moq_lite_client.c:2825-2854 | One frame of the track for one subscription, in place, equals the step of which MoqTrackSpec says which frames are taken and where groups begin |
| `MoqServeRecord.ServeSub.TrackEnd` | moqlite/moq_lite_client.c:2872-2883 | The end of the track for one subscription, in place |
| `MoqServeRecord.ServeSub.ReplayHold` | moqlite/moq_lite_client.c:2812-2820 | The held frames written to a new subscription, one after the other |
| `MoqGroupRoundTrip.RoundTrip` | moqlite/moq_lite_client.c:904-1041 | For every proper run of the publisher and every way the bytes of a finished stream reach the session, in arrivals that stay within the receive limit: the subscriber is handed exactly the frames taken for that group, in order and numbered from 0, then the end of that group once; the marker is not delivered |
| `MoqGroupRoundTrip.RefusedThenGood` | moqlite/moq_lite_client.c:2191-2225 | A group of an unknown subscription and behind it one of a known, on one stream: in one piece the second is not seen, in two pieces its frame is delivered |
| `MoqGroupRoundTrip.ExpectedAt` | moqlite/moq_lite_client.c:952-1041 | Callback i carries frame i, its difference and its payload |
| `MoqGroupRoundTrip.DeltasSumUp` | moqlite/moq_lite_client.c:1533-1552 | The running sum of the differences is the absolute time stamp |
| `MoqGroupRoundTrip.PayloadStrips` | moqlite/moq_lite_client.c:885-902 | Stripping the prefix of the payload gives the absolute time stamp and the media bytes |
| `AssemblerSpec.RunKeeps` | quic/quic_connection.c:469-668 | Over every run with arbitrary window and pacing answers: the blocks accepted are, in order and once each, those in payloads handed over and then those pending; ACK frames only in front; no payload empty or above 1286 bytes; and pending payload always has its timer running |
| `AssemblerSpec.QueueKeeps` | quic/quic_connection.c:528-566 | A block is taken whole at the end of the payload or refused; a refusal leaves the pending payload alone or has sent it whole |
| `AssemblerSpec.AckKeeps` | quic/quic_connection.c:581-636 | An acknowledgement goes in front of what is pending, or out alone, and is counted once |
| `AssemblerSpec.FlushKeeps` | quic/quic_connection.c:638-668 | A flush keeps conservation, takes nothing in and leaves the timer running |
| `AssemblerGates.FlushSendsIff` | quic/quic_connection.c:638-668 | A flush hands over exactly the pending payload if there is some and window and pacer say yes, else nothing; the backoff is doubled, up to 50, on a closed window and starts anew with a packet |
| `AssemblerGates.QueueTakesIff` | quic/quic_connection.c:528-566 | A block is taken exactly if it is at most 1286 bytes long and fits behind what is pending, or nothing is pending, or the flush before it goes through; it is then the last one pending |
| `AssemblerGates.AckGoesWhere` | quic/quic_connection.c:581-636 | An acknowledgement that is due goes in front of the payload where both fit; where not, the payload goes out first on a yes of the window, else the acknowledgement alone |
| `AssemblerGates.TurnSendsIff` | quic/quic_connection.c:469-506 | In a turn of the drain a packet goes out exactly if there is payload, refilled or not, and window and pacer say yes; the 128th ends it |
| `AssemblerGates.RunObeys` | quic/quic_connection.c:469-668 | Over every run a payload with frames in it goes out only in an event whose answers allow it: window and pacer for offers, flushes and drains, the window for an acknowledgement |
| `AssemblerGates.DrainCounts` | quic/quic_connection.c:469-506 | The result counts packets that went out; it is 0 only with nothing pending, and negative only with the timer running |
| `AssemblerGates.TimerGoesOn` | quic/quic_connection.c:507-526 | While a stream has data buffered, the timer runs again or a packet has gone out; behind 128 packets it always runs |
| `AssemblerSpec.DrainKeeps` | quic/quic_connection.c:469-526 | The drain loop, its refills and both ways out, including the 128-packet limit, keep conservation and the wakeup |
| `AssemblerConn.PacketConn.QueueFramesOn` | quic/quic_connection.c:528-566 | On the payload array: appended behind, or flushed first, or refused |
| `AssemblerConn.PacketConn.QueueAckOn` | quic/quic_connection.c:581-636 | On the payload array: moved up and put in front, or sent alone |
| `AssemblerConn.PacketConn.FlushPacket` | quic/quic_connection.c:638-668 | The flush in place equals the flush of which AssemblerGates.FlushSendsIff says when it sends |
| `AssemblerConn.PacketConn.PacingDrain` | quic/quic_connection.c:469-506 | The drain loop in place equals the drain function and its result |
| `AssemblerConn.PacketConn.OnFlushTimer` | quic/quic_connection.c:507-526 | The timer callback in place |
| `AssemblerSpec.FreshIsKept` | quic/quic_connection.c:368-376 | A new connection satisfies both |
| `TimerSpec.RunGood` | quic/quic_timer.c:23-93 | After any run of starts, stops, frees and ticks the list is sorted by due time, equal times in the order of starting, and holds no timer twice |
| `TimerSpec.StartMembers` | quic/quic_timer.c:114-127 | A start or stop changes one timer and leaves the others as they were |
| `TimerSpec.SortedIsUnique` | quic/quic_timer.c:33-46 | Two sorted lists with the same entries are the same list |
| `TimerSpec.InsertGood` | quic/quic_timer.c:33-46 | Linking behind all entries due no later keeps the order |
| `TimerSpec.TickCallsTheDue` | quic/quic_timer.c:59-93 | Whatever callbacks start, stop and free: a tick calls exactly the timers due when it began, the first 1024 of them in due order, each once and no other |
| `TimerSpec.DueAreInFront` | quic/quic_timer.c:71 | In the sorted list the timers due are exactly those of the front |
| `TimerSpec.CollectLeaves` | quic/quic_timer.c:71-85 | When the callbacks begin, the timers outside the batch are as they were and the repeating ones of the batch are due again at now + repeat |
| `TimerSpec.CollectTakesBatch` | quic/quic_timer.c:71-85 | The collecting loop takes the first due entries in order and nothing else |
| `TimerSpec.TickFreesLast` | quic/quic_timer.c:48-57 | With at most 64 frees asked for, all of them happen after all callbacks |
| `TimerSpec.TickSafeIff` | quic/quic_timer.c:48-151 | For every wheel that holds no timer of a freed object, whatever callbacks start, stop and free: no callback of a tick runs on a freed object exactly if no object called in it was freed by an earlier callback past the 64th free of the tick |
| `TimerSpec.TickIsSafe` | quic/quic_timer.c:69-92 | So with at most 64 frees asked for none does |
| `TimerSpec.TickLog` | quic/quic_timer.c:48-92 | The log of any tick: the calls in order, each followed by its frees past the 64th, then the others |
| `TimerEffects.TickLeaves` | quic/quic_timer.c:59-127 | For every timer and tick, whatever callbacks start, stop and free: if a callback started or stopped it the last one to do so decides, a start leaving it due at now + timeout with that repeat, callback and user, a stop leaving it off; else it stands as before, or if its batch called it is off or due again at now + repeat |
| `TimerEffects.TickFreesAll` | quic/quic_timer.c:48-93 | Every free asked for in a tick happens in it, once |
| `TimerEffects.RunFreesAll` | quic/quic_timer.c:137-151 | Over every run the objects freed are exactly those asked to be freed, each as often as it was asked for |
| `TimerSpec.RunIsSafe` | quic/quic_timer.c:69-151 | Over every run of owners who leave no timer of a freed object behind and free none late whose timer is called behind in the same tick, no callback ever runs on a freed object |
| `TimerSpec.OverflowIsUnsafe` | quic/quic_timer.c:143-147 | Two timers due, the callback of the first frees 64 objects and then the one the second timer belongs to: the tick calls the second on a freed object |
| `TimerWheelRecord.UnlinkedIsLinked` | quic/quic_timer.c:23-31 | The four pointer updates of unlinking leave a well-formed doubly linked list of the other timers |
| `TimerWheelRecord.LinkedBetweenIsLinked` | quic/quic_timer.c:33-46 | Linking between two neighbours leaves a well-formed list with the new timer at its place |
| `TimerWheelRecord.TimerWheel.Unlink` | quic/quic_timer.c:23-31 | In place: the list stands for the sequence without the timer |
| `TimerWheelRecord.TimerWheel.LinkSorted` | quic/quic_timer.c:33-46 | In place: the list stands for the sequence with the timer inserted |
| `TimerWheelRecord.TimerWheel.IsActive` | quic/quic_timer.c:129-131 | A timer is active exactly when it is in the list |
| `TimerWheelRecord.TimerWheel.Start` | quic/quic_timer.c:114-123 | A start, also of a running timer |
| `TimerWheelRecord.TimerWheel.DeferFree` | quic/quic_timer.c:137-151 | Queued while callbacks run and there is room, else freed at once |
| `TimerWheelRecord.TimerWheel.OnWheel` | quic/quic_timer.c:59-93 | The whole tick in place, with callbacks that start, stop and free, equals the tick of the sequence, of which TimerSpec.TickLog says what it calls and TimerEffects.TickLeaves what it leaves |
| `TimerWheelRecord.TimerWheel.RunDeferredFrees` | quic/quic_timer.c:48-57 | Frees in order, once each, and empties the queue |
| `PacingSpec.RunIsPaced` | quic/pacing_send.c:31-86 | Over any run with a clock that does not go back, any rates: the bytes let through are at most the balance at the start plus rate times time over each stretch, and the balance stays between 0 and the burst |
| `PacingSpec.BetweenTwoPoints` | quic/pacing_send.c:20-86 | The same between any two points of a run that starts with a new bucket; at an anchor the bound is the token count itself |
| `PacingSpec.AcquireIffAvail` | quic/pacing_send.c:75-86 | An acquisition succeeds exactly when the balance at that moment covers it and takes exactly that much |
| `PacingSpec.WaitIsTight` | quic/pacing_send.c:88-108 | For an anchored bucket and a wait w below the cap: every acquisition before now + w fails and every one after now + w succeeds, if nothing is sent in between |
| `PacingSpec.NotBeforeTheWait` | quic/pacing_send.c:88-108 | The first half for every bucket, also at the cap and when not anchored |
| `PacingSpec.TightIff` | quic/pacing_send.c:88-108 | Success one nanosecond after the wait, exactly when the balance covers it already or the bucket is anchored, can hold that much, and the cap did not cut the wait |
| `PacingSpec.CalcBurst` | quic/pacing_send.c:11-18 | The burst lies between 2400 and 65536 bytes |
| `PacingSpec.BurstIs` | quic/pacing_send.c:11-18 | The burst is what ten milliseconds of the rate come to, between 2400 and 65536 |
| `PacingSpec.NewRate` | quic/pacing_send.c:31-49 | A new rate keeps the balance up to the new burst and drops the anchor; the same rate changes nothing, and rate 0 empties the bucket |
| `PacingSpec.NewBucket` | quic/pacing_send.c:20-29 | A new bucket is empty and not anchored; its burst is the one asked for, else computed from the rate, else the initial one |
| `PacingSpec.SecondsEarn` | quic/pacing_send.c:51-73 | A second earns the rate in bytes, and spans of time add up |
| `PacingRecord.PacingSend.SetRate` | quic/pacing_send.c:31-49 | The fields afterwards are those of the bucket function |
| `PacingRecord.PacingSend.Refill` | quic/pacing_send.c:51-73 | The fields afterwards are those of the bucket function |
| `PacingRecord.PacingSend.Acquire` | quic/pacing_send.c:75-86 | Answer and fields are those of the bucket function |
| `PacingRecord.PacingSend.Wait` | quic/pacing_send.c:88-108 | The wait is that of the bucket function |
| `AckSpec.RunCovers` | quic/quic_connection.c:1456-1510 | Over every run, failures and draining included: a number is in a block exactly when some ack-eliciting packet with that number arrived that did not lie below the block then pending |
| `AckSpec.HealthyRunAcks` | quic/quic_connection.c:1456-1561 | While not draining and sending works, the blocks sent or pending are exactly these |
| `AckSpec.BlockLeavesIff` | quic/quic_connection.c:1456-1561 | The pending block is let go by every send and by an arrival behind a gap; it goes out exactly if sending works, which a draining connection allows to a queued acknowledgement only, else it is given up |
| `AckSpec.LargestIsKept` | quic/quic_connection.c:1456-1462 | The number kept for decoding is the largest that ever arrived |
| `AckSpec.StepCovers` | quic/quic_connection.c:1456-1487 | One step adds at most the arriving number and never takes one away |
| `AckSpec.InOrderIsExact` | quic/quic_connection.c:1470-1487 | Received in order, each number is acknowledged exactly once, in the order of arrival |
| `AckSpec.ReorderedIsPassedOver` | quic/quic_connection.c:1486 | Numbers 5 then 3: the 3 is never acknowledged |
| `AckRecord.AckTracker.RecordRxPn` | quic/quic_connection.c:1456-1487 | The fields afterwards are those of the step |
| `AckRecord.AckTracker.BuildAndSendAck` | quic/quic_connection.c:1489-1561 | The pending block is sent or given up, once |
| `AckRecord.AckTracker.QueueAck` | quic/quic_connection.c:581-600 | The same for an acknowledgement put into the next packet |
| `KeyUpdateSpec.FeedFollows` | quic/quic_connection.c:2210-2313 | The generation stays or rises by one, on an accepted packet of that generation; the write side falls behind by one exactly if it could not follow |
| `KeyUpdateSpec.RunFollows` | quic/quic_connection.c:2210-2346 | Over every run with a peer whose phase bit is the parity of its generation, secrets kept or not, derivations failing at any point: the read side is at the generation of the last packet accepted, risen one by one through those before it, the phase is its parity, and the write side is behind by exactly the number of rises it could not follow |
| `KeyUpdateSpec.RunAccepts` | quic/quic_connection.c:2080-2313 | After any such run a packet is accepted exactly if it is whole and of the generation of the last one accepted, or of the next and the read keys can be derived, and under its own packet number; one of an earlier generation never is |
| `KeyUpdateSpec.NumberedIff` | quic/quic_connection.c:2150-2196 | Which packet numbers are tried: the decoded one, and for a number of one byte and decoded ones from 256 the wire byte, the same plus 256, and the decoded one less 512 and less 768 where it is that large |
| `KeyUpdateSpec.RunCounts` | quic/quic_connection.c:1318-1385 | After any such run, packets sent, sealing failing, gaps acknowledged and closes at any point: the count kept against the AEAD limit differs from the packets sealed under the write key in use by exactly those sealed aside (acknowledgements of a gap, CONNECTION_CLOSE) and the counts lost to trials, less the packets that could not be sealed; so it is too small exactly if the former outnumber the latter |
| `KeyUpdateSpec.WarnedIff` | quic/quic_connection.c:1339-1350 | The AEAD warning stands exactly while the count is at 2^20 or above, in every run |
| `KeyUpdateSpec.RunRecords` | quic/quic_connection.c:1400-1443 | Over every run the count of recorded packets is that of the packets sealed and recorded since the last trial |
| `KeyUpdateSpec.GapAckIsUncounted` | quic/quic_connection.c:1476-1549 | Packets 1 and 3 arrive and the gap is acknowledged at once: one packet is sealed and none counted, without a trial or a failure |
| `KeyUpdateSpec.SyncFiresIff` | quic/quic_connection.c:2325-2346 | The later phase synchronisation acts exactly for a packet whose phase bit is not the parity of its generation |
| `KeyUpdateSpec.PhaseIsTaken` | quic/quic_connection.c:2325-2346 | Whatever the state, an accepted packet leaves its phase as that of the peer, and a change of phase as well as a trial leaves both phases equal |
| `KeyUpdateSpec.SpinIsEchoed` | quic/quic_connection.c:2080-2110 | The spin bit is that of the last packet whose header was uncovered; one whose header stays covered leaves its raw bit exactly if it leads to a trial |
| `KeyUpdateSpec.DroppedRestores` | quic/quic_connection.c:2210-2310 | A failed trial restores keys, secrets and phases; the packet counters are zeroed exactly when a trial was made |
| `KeyUpdateRecord.AppKeys.TryNextKeys` | quic/quic_connection.c:2210-2310 | Keys put in place for the trial and taken out again |
| `KeyUpdateRecord.AppKeys.InstallNext` | quic/quic_connection.c:2244-2256 | The next read keys, the next write keys if their secret was kept and they can be derived, phases and counters |
| `KeyUpdateRecord.AppKeys.PutBack` | quic/quic_connection.c:2296-2304 | What was saved is put back |
| `KeyUpdateRecord.AppKeys.TryAlternates` | quic/quic_connection.c:2150-2196 | The loop over other packet numbers finds the right one exactly if it is among them |
| `KeyUpdateRecord.AppKeys.OnSend` | quic/quic_connection.c:1339-1443 | The count and its warning before sealing, the count of recorded packets behind it |
| `KeyUpdateRecord.AppKeys.OnSendAside` | quic/quic_connection.c:1520-1560 | A packet sealed past the count |
| `KeyUpdateRecord.AppKeys.FeedShort` | quic/quic_connection.c:2080-2346 | One packet in place equals the step |
| `HeaderProtection.RemoveUndoesApply` | quic/quic_crypto.c:521-606 | For every mask function and every packet whose first byte encodes its packet number length: removing restores every byte, and the length comes back exactly when there was a sample to take |
| `HeaderProtection.RoundTrip` | quic/quic_crypto.c:521-606 | For every length n of 1 to 4 and every packet whose first byte says so and that can be sampled: removing gives back the packet and n |
| `HeaderProtection.PnLenIs` | quic/quic_crypto.c:567-599 | The length is the low two bits of the first byte plus one |
| `HeaderProtection.LongSample` | quic/quic_crypto.c:521-606 | The protected header of Appendix A.2 of RFC 9001 |
| `HeaderProtection.ShortSample` | quic/quic_crypto.c:521-606 | The protected header of Appendix A.5 of RFC 9001 |
| `HeaderProtection.ApplyUndoesRemove` | quic/quic_crypto.c:521-606 | Protecting an unprotected packet again gives the bytes that were on the wire |
| `HeaderProtection.ApplyTouchesOnly` | quic/quic_crypto.c:521-546 | Only the low bits of the first byte and the packet number change |
| `HeaderProtection.SampleStays` | quic/quic_crypto.c:525-530 | The sample is disjoint from all covered bytes |
| `HeaderProtection.HpApply` | quic/quic_crypto.c:521-546 | In place on the packet buffer |
| `HeaderProtection.HpRemove` | quic/quic_crypto.c:548-606 | In place on the packet buffer, for both header forms; HeaderProtection.RoundTrip says what comes back |
| `MoqAnnounceSpec.RunCovers` | moqlite/moq_lite_client.c:1382-1487 | In every reachable state, on every answered stream still open, each broadcast in scope that has a track has been named since the latest ANNOUNCE_OK |
| `MoqAnnounceSpec.StepKeeps` | moqlite/moq_lite_client.c:1451-1487 | Each request, publication and track keeps that |
| `MoqAnnounceSpec.StartsName` | moqlite/moq_lite_client.c:1382-1415 | Every start in an answer or an addition names a broadcast that has a track and is in scope |
| `MoqAnnounceSpec.AnswerCounts` | moqlite/moq_lite_client.c:1382-1415 | The count in an answer and the number of starts behind it are the number of such broadcasts |
| `MoqAnnounceSpec.RunNames` | moqlite/moq_lite_client.c:1382-1487 | Over every run, every start written since the latest answer on a stream names a broadcast that has a track and is in its scope |
| `MoqAnnounceSpec.ReannounceMarks` | moqlite/moq_lite_client.c:1451-1487 | A broadcast counts as announced exactly from when it was due and some open stream had it in scope |
| `MoqAnnounceSpec.PublishReaches` | moqlite/moq_lite_client.c:2660-2764 | A broadcast published and given its first track is named on every stream answered, still open and of a scope that holds it |
| `MoqAnnounceSpec.FourTracks` | moqlite/moq_lite_client.c:2702-2720 | A broadcast takes four tracks and no more |
| `MoqAnnounceSpec.GoneHearsNothing` | moqlite/moq_lite_client.c:1462-1475 | A stream that is gone is written nothing more, in every run |
| `MoqAnnounceSpec.JoinIsInverse` | moqlite/moq_lite_client.c:749-762 | Joining prefix and suffix gives back the path exactly unless it is the prefix and a bare slash |
| `MoqAnnounceSpec.InScopeIff` | moqlite/moq_lite_client.c:1365-1378 | A path is in scope exactly when it can be joined from the prefix, or is the prefix and a bare slash |
| `MoqAnnounceSpec.ReannounceWrites` | moqlite/moq_lite_client.c:1451-1487 | What late announcing writes to each stream |
| `MoqAnnounceSpec.StrayStartIff` | moqlite/moq_lite_client.c:1462-1475 | A stream not asked on yet is sent an ANNOUNCE_START exactly if its type is announce or still unread |
| `MoqAnnounceSpec.StrayStart` | moqlite/moq_lite_client.c:2197-2203 | A stream that turns out to be of another kind may carry one |
| `MoqAnnounceSpec.NamedTwice` | moqlite/moq_lite_client.c:1454-1485 | A broadcast named in the answer is named again with its next track |
| `MoqAnnounceSpec.RequestReadsBack` | moqlite/moq_lite_client.c:1720-1751 | A well-formed request is found and cut out, whatever follows it |
| `MoqAnnounceSpec.RequestIff` | moqlite/moq_lite_client.c:1720-1751 | A request is found exactly where a whole message is one string; an incomplete one waits and all else is malformed |
| `MoqAnnounceDelivery.SubscriberHearsIff` | moqlite/moq_lite_client.c:1043-1187 | From one side to the other, in every reachable publisher state, on every open stream asked on once, however its bytes are cut: a broadcast in scope that has a track is reported exactly if no ANNOUNCE_START was written before the answer, and then under its own path unless that is the prefix and a bare slash |
| `MoqAnnounceDelivery.StrayDeafens` | moqlite/moq_lite_client.c:1043-1100 | One ANNOUNCE_START in front of the answer silences the whole stream: however its bytes are cut and whatever follows, the subscriber only asks for resets |
| `MoqAnnounceDelivery.LogIsRead` | moqlite/moq_lite_client.c:1043-1187 | An answer and whatever was added to it is parsed into one report each, in order |
| `MoqAnnounceRecord.MoqPublisher.AnnounceWrite` | moqlite/moq_lite_client.c:1382-1415 | Counts and collects the broadcasts in scope, the count first |
| `MoqAnnounceRecord.MoqPublisher.OnRequest` | moqlite/moq_lite_client.c:1720-1751 | A well-formed request is answered on its own stream and its prefix kept |
| `MoqAnnounceRecord.MoqPublisher.ServeParseAnnounce` | moqlite/moq_lite_client.c:1720-1751 | Nothing yet, the end of the stream for a malformed or oversize request, or an answer, and what is left in the buffer |
| `MoqAnnounceRecord.MoqPublisher.ServeReannounce` | moqlite/moq_lite_client.c:1451-1487 | The nested loops equal the function |
| `MoqAnnounceRecord.MoqPublisher.PublishTrack` | moqlite/moq_lite_client.c:2702-2764 | A new track, as far as announcing goes |
| `OpenIntentSpec.RunKeeps` | moqlite/moq_lite_client.c:2031-2189 | Over every run, opens dropped or failed at any point: per class, opens asked for are outstanding, came or were lost, and intents are served in order |
| `OpenIntentSpec.NothingLostIsPaired` | moqlite/moq_lite_client.c:2031-2189 | While nothing is lost on a connection: unidirectional opens outstanding are the group intents queued plus one until SETUP is assigned, bidirectional ones the others, and when none are outstanding exactly one stream is SETUP |
| `OpenIntentSpec.KthGetsKth` | moqlite/moq_lite_client.c:2059-2071 | The k-th stream bound in a class goes to the k-th intent asked for in that class, whatever is lost |
| `OpenIntentSpec.PushAppendsIff` | quic/quic_client_api.c:78-105 | A task is appended exactly if it is the close or fewer than 1024 wait |
| `OpenIntentSpec.OtherTasksWait` | quic/quic_client_api.c:78-105 | A task that is no open waits in the same line |
| `OpenIntentSpec.NothingIsLost` | quic/quic_client_api.c:78-105 | While every open is pushed below 1024 tasks and succeeds, none is lost |
| `OpenIntentSpec.SetupIff` | moqlite/moq_lite_client.c:2114-2134 | Over every run SETUP gets a stream exactly if some unidirectional open succeeds while no group intent is queued; with nothing outstanding on one connection, exactly if one group is left waiting for each such open that was lost |
| `OpenIntentSpec.SetupIsFirstIff` | moqlite/moq_lite_client.c:2114-2134 | The first unidirectional stream that comes is SETUP, then and ever after, exactly if no group was asked for before it came |
| `OpenIntentSpec.GroupMayGoFirst` | moqlite/moq_lite_client.c:2114-2134 | SETUP need not be the first stream |
| `OpenIntentSpec.LostSetupStarves` | quic/quic_client_api.c:509-513 | With the first open lost the only stream goes to the group and SETUP gets none |
| `OpenIntentRecord.TaskQueue.TaskPush` | quic/quic_client_api.c:78-105 | The linked queue: appended, or refused when 1024 wait, CLOSE never |
| `OpenIntentRecord.TaskQueue.TaskPop` | quic/quic_client_api.c:107-117 | The linked queue: first in, first out |
| `OpenIntentRecord.OpenSession.OnConnected` | moqlite/moq_lite_client.c:2073-2107 | Asks for the SETUP stream, without an intent |
| `OpenIntentRecord.OpenSession.AskFor` | moqlite/moq_lite_client.c:2031-2052 | The intent is queued, then the open |
| `OpenIntentRecord.OpenSession.PendingPopKind` | moqlite/moq_lite_client.c:2059-2071 | The first intent of the class, taken out of the middle |
| `OpenIntentRecord.OpenSession.AsyncOne` | quic/quic_client_api.c:439-476 | One task of the loop, up to the callback |
| `QpackSpec.RoundTripIff` | http3/qpack.c:190-203 | Decoding a printed list and reading its strings, whatever the Huffman table as long as no symbol is shorter than five bits, gives it back exactly when every value is at most 126 bytes long |
| `QpackSpec.FieldReadsBack` | http3/qpack.c:148-184 | One printed field with a short value reads back, whatever follows it |
| `QpackSpec.LongValueIsMisread` | http3/webtransport_client_api.c:139-144 | The text read from a value of 127 bytes or more is never that value |
| `QpackSpec.CodedIsShort` | http3/qpack.c:101-185 | From 128 bytes on the value is taken for coded bytes, fewer than five eighths of the value in number |
| `QpackSpec.ContReadsBack` | http3/qpack.c:72-86 | A prefix integer reads back exactly if its continuation is at most nine bytes long, else reading fails |
| `QpackSpec.SectionReads` | http3/qpack.c:71-203 | A header section with any prefix and any list of indexed lines, name references and literals decodes to their fields, with table bit, indices, names, values and Huffman bits as they were sent, as many as there is room for; something broken behind them takes nothing away |
| `QpackSpec.PrefixIntReads` | http3/qpack.c:72-86 | A prefix integer of each width reads back, with any flags in front and anything behind |
| `QpackSpec.CutLineIsRefused` | http3/qpack.c:95-184 | No line cut short anywhere is read |
| `QpackSpec.OthersAreRefused` | http3/qpack.c:95-194 | Lines counted from behind the base are not taken, nor a section shorter than its two prefix integers |
| `QpackSpec.DynamicNameIsRefused` | http3/qpack.c:148-184 | A reference to a name of the dynamic table is not taken |
| `QpackSpec.ContLength` | http3/webtransport_client_api.c:131-136 | n continuation bytes carry exactly the values below 128^n |
| `QpackSpec.VdTailFits` | http3/qpack.c:72-86 | No value read exceeds 64 bits |
| `QpackRecord.VarintDecode` | http3/qpack.c:72-86 | The loop computes the prefix integer |
| `QpackRecord.DecodeBlock` | http3/qpack.c:190-203 | The loop computes the decoded fields |
| `QpackRecord.WriteLiteral` | http3/webtransport_client_api.c:127-147 | In place: exactly the printed field behind what the buffer held |

## Left out

- CryptoReceiver.CryptoLevel.Feed: a gap frame that reaches past the buffer window is required not to occur; the program grows the byte buffer there (quic/quic_connection.c:1825-1833) but not the fill map.
- CryptoStream.GapFillTakenIff: for a buffer of its first size, 65536 bytes; one that a gap frame past the window has grown takes more.
- AssemblerSpec.RunKeeps: the window and pacing answers are unconstrained inputs, an ACK that cannot be encoded is lost as in the code, and closing or destructing the connection is not modelled.
- TimerWheelRecord.TimerWheel.Start: does not model the 64-bit wrap-around of now + timeout; the wheel is taken to be initialised.
- PacingSpec.RunIsPaced: doubles are real numbers, so rounding is not modelled.
- QpackSpec.RoundTripIff: header blocks are shorter than 2^31 bytes, since lengths are kept in int; names and values are C strings without NUL.
- MoqGroupRoundTrip.RoundTrip: time stamps are below 2^61 microseconds, frames not empty and small enough for one message, and no group is closed while its stream is opening. Every write is taken to reach its stream; the program drops writes that find 1024 tasks waiting (quic/quic_client_api.c:84).
- MoqUniSpec.UniStableIff: for bytes that fit the receive limit in one piece; a longer stream is covered, while nothing stops its record, by MoqUniSpec.LinkIsRecord.
- MoqParser.ReplyStableIff: for bytes that fit the receive limit in one piece; a reply stream whose record was removed is not followed any further.
- MoqAnnounceDelivery.SubscriberHearsIff: for streams asked on once, and suffixes that fit one message.
- MoqAnnounceReplies.MessagesAreHeard: the broadcasts of the session are handed to the stream at its start and no other stream adds to them meanwhile; handles without an announcement, which an ANNOUNCE_END skips, are left out.
- MoqSubscribeReplies.RepliesAreHeard: the subscription is taken to be there.
- AssemblerGates.TimerGoesOn: the flush timer is armed or not; after how long it fires is left out, but for the backoff.
- KeyUpdateSpec.RunFollows: a packet whose header could not be unprotected never opens.
- Allocation failure, logging, and the resources behind handles; lists that grow in the program are sequences.
- The 1-RTT CRYPTO case, the gapped write interface and the flag for a finished handshake, behind which a frame that fills a gap need not start a scan.
- Streams that the peer resets, and the end of a stream announced more than once by repeated frames.
- Parsing of peer-opened TRACK and SUBSCRIBE requests and of TRACK_INFO, the catalog, and which frames a track holds back for later subscriptions.
- Frame and packet codecs, packet number encoding, loss recovery, congestion control and stream flow control: frames are blocks, decoded packet numbers are inputs.
- Huffman decoding and the QPACK static table: the Huffman decoder is any function that needs at least five bits for a byte (the shortest code of Appendix B of RFC 7541), table references stay as they are in the decoded field.
- A header protection cipher that fails, and a packet number at offset 0.
- Resolving host names, connecting and closing in the client task loop; a task that is no open only passes through the queue.
- GopCache, the WebTransport registry, HTTP/3 frame wrappers, the chat server and the command line tools.
