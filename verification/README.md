# Verification of the aioquic transport stack

This project models the QUIC, TLS 1.3 and HTTP/3 code of the vendored aioquic library (`src/aioquic`) and
proves what that code is for: data arrives whole and in order, credit is never exceeded, every packet is
accounted for once, what is written is read back, and two honest endpoints end up with the same keys. The
project stands alone; `dafny verify dfyconfig.toml` checks all of it.

The source keeps its state in objects that it updates in place, and so does the model. Each class has the
fields of its Python or C counterpart, and each method is proved against a function on values (`State() ==
Spec(old(State()))`). The theorems are then proved about those functions: over one call, or over every run
of a state machine whose steps they are.

## Results

**Reliable streams** (`RangeSet`, `StreamSpec`, `Stream`, `StreamRun`, `StreamGuard`). The sender tracks
each written offset as released, acknowledged, pending, or part of one open frame, and every operation
keeps that partition. A sender and a receiver joined by a network that loses, duplicates and reorders
frames form one system. In every run of it the output is exactly the longest prefix of the input whose
offsets have arrived, and the receiver is finished exactly when a FIN arrived and all bytes were handed
over (`DeliveryIsExact`). The application is told of the end exactly then, and nothing is handed over
after that (`EndIsAnnounced`). If only frames that arrived are acknowledged, a finished sender means
complete delivery (`FinishedMeansDelivered`). The receiver's fast path and its buffered path both refine a
plain map of received offsets. A peer may break every rule: the frames refused are exactly those that
contradict an end given before or exceed a limit (`RefusedExactly`, `GuardedExactly`), and after the
others the receiver stands where the union of their offsets puts it (`ReceiverStands`). An end that lies
inside the data received is accepted, and the stream then never ends; `EndExactly` says when it still can.

**Flow control** (`FlowControl`, `FlowEndpoint`, `FlowProgress`). Any number of streams between two honest
endpoints, with STREAM, MAX_DATA and MAX_STREAM_DATA frames lost, duplicated, reordered or delayed. The
chain of sums from received offsets up to the local limit holds in every run, so no flow-control or
final-size error is ever raised (`CreditIsRespected`). A transfer never stops for good: in every reachable
state any further bytes can still all be handed over if and only if neither limit is zero
(`TransferGoesOn`), since a limit doubles exactly when more than half of it is used (`AttemptDoubles`),
and a sender holds nothing back (`SendsAllItMay`). The handlers on objects are proved to be the steps of
that system. A STREAM frame is taken from its sender before its header is found to fit. `DroppedExactly`
says when that loses a frame, namely when it is a FIN on its own and the header does not fit. Whether the
end of the stream can still get through, and whether the sender can ever finish, is decided at that moment
(`DroppedForGood`, in `FinDrop`): if and only if a FIN was acknowledged before, or a frame in flight
carries FIN or the last byte written. The bytes of a STREAM frame (`StreamFrame`) read back if and only if
it has fewer than 0x4000 bytes of data (`StreamReadsBack`).

**Service order** (`StreamQueue`). After every pass, also one cut short by a full packet, the queue is a
permutation of the live streams with the unserved ones in order at its front. Over many passes, nothing
new gets ahead of a waiting stream, and a stream that stays ready is served after at most as many passes
as there are streams ahead of it (`ServedInTurn`).

**Loss recovery** (`RecoverySpec`, `Recovery`, `RecoveryRun`, `RecoveryLaw`). In every run each packet has
exactly one fate, its handlers run at most once, and bytes in flight are an exact sum over all spaces. The
scan that stops early selects what a full filter would and leaves nothing late behind (section 6.1 of RFC
9002). Exactly the late packets leave: three below the largest acknowledged, or too old (`ScanExactly`).
The window grows and is cut by exact amounts (`SlowStartExactly`, `RoundGrowsByOne`, `CutExactly`). The
round-trip estimate is bounded by its samples over every run; the comment that it cannot fall below a
millisecond holds of the smoothed value exactly when the first sample is that large (`SmoothedFloor`).

**Streams over packets** (`TransportRun`, `TransportOwed`). Frames of any number of streams travel in
packets, ACK frames name packets that arrived, and what recovery decides about a packet is reported to the
streams whose frames it carried. In every run no report is made twice or for a frame that did not arrive,
so what the stream results assume of reports holds, and a finished sender means complete delivery
(`EveryStreamDelivers`). Nor is a report forgotten: every frame in flight is in a packet still tracked,
unless it was dropped or its space discarded (`EveryFrameIsOwed`), and the report settles all its bytes
(`AckReachesFrames`, `LossReachesFrames`).

**Packets** (`Buffer`, `AckFrame`, `PacketNumber`, `Headers`, `HeaderReader`, `HeaderLaw`, `HeaderWriter`,
`BuilderSpec`, `Coalescing`, `BuilderRun`, `BuilderContent`, `BuilderLength`, `BuilderBudget`,
`BuilderFlight`, `Builder`, `WireFormat`). The builder writes payloads, goes back to patch headers, and
protects in place. A datagram it hands over is split by the receiver exactly where it was joined if and
only if every long-header packet in it has a length below 0x4000 (`EveryDatagram`, `LengthReadsBack`);
`SplitsExactly` says for which datagram sizes that holds in every run. Over every run the packets handed
over say exactly what was written (`PacketsSayWhatWasWritten`), and a receiver that can undo their
protection reads the number of each from its bytes, in any order of arrival within half a window
(`EveryPacketIsRead`). The headers accepted are described byte by byte (`LongExactly`, `ShortExactly`),
and Retry and version negotiation packets read back. Varints, ACK frames and packet numbers round-trip;
`RecoveredExactly` says which numbers survive truncation, both ways. Writers that keep to the room granted
keep the total within its budget, and `OverrunsExactly` says when a single packet does not. The bytes in
flight keep to theirs in exactly the runs in which every packet fits when it is ended (`FlightInBudget`),
which a payload of one byte and a frame not in flight can break. `WireFormat` fixes byte strings, those of
the RFCs' own examples among them.

**HTTP/3 parser** (`H3Spec`, `H3Chunks`, `H3End`, `H3Shape`, `H3Length`, `H3Grammar`, `H3`). Any two ways
of cutting the same bytes into chunks give the same result and the same residual state (`CutAnyhow`);
frames made by `encode_frame` are handled as exactly those frames (`FramesReadBack`). The sequences of
frames that a fresh stream accepts are given exactly, with the events of each (`AcceptedExactly`). The
events of a request stream always form one message (`MessageShape`) whose data has the length that its
first field section declares (`MessageMeetsLength`), and `WrongLengthRefused` says exactly when another
length is refused. The end of the stream may come with the last chunk or alone. `EndAnyhow` says, for all
bytes and all cuttings, exactly when both have the same outcome; a DATA frame that is cut off is one case
where they do not (`TruncatedData`).

**TLS 1.3** (`TlsCodec`, `TlsHello`, `TlsStrict`, `TlsWriter`, `TlsReader`, `TlsSchedule`, `TlsSpec`,
`TlsContext`, `TlsRun`, `TlsHandshake`, `TlsHistory`, `TlsServerHistory`, `TlsTranscript`, `TlsOutcome`).
The ClientHello codec with its nested, back-patched blocks round-trips, and the bytes the client hashes
around the binder are the message it sends. What its reader refuses is given exactly (`HelloExactly`,
`ExtensionsExactly`, `ListExactly`). With hash, HKDF, Diffie-Hellman and signatures as free symbols, the
outcome of every run is settled by the configurations: both ends complete if and only if `Compatible`
holds, and then hold the same schedule, mirrored keys and equal ticket secrets
(`CompleteExactlyWhenCompatible`). `CompatibleExactly` and `EndsAgree` say what that is and what they
agree on in terms of the configurations alone. Whatever messages an endpoint is given, from whomever, its
transcript is what it sent and was given, every secret is the term of RFC 8446 over a prefix of that, and
it finishes only if the peer's Finished and signature cover all of it (`ClientHistory`, `ServerHistory`);
at the end of a compatible exchange both transcripts are all messages in order (`ExchangeTranscript`).
`Handshake` runs two context objects against each other in any order and has that outcome. A secret is
bound to everything that went into it (`SecretsBindHistory`). No run gets stuck (`RunsComplete`), and in
all runs, compatible or not, the generation assertions hold.

## Assumptions

- `StreamRun` and `FlowControl` assume that a frame is reported at most once; `TransportRun` proves it of
  frames that travel in packets. A frame that is dropped neither arrives nor is reported, so the safety
  results cover it.
- The frames of a stream are cut from one byte string.
- Packet numbers of a space grow, and the list of spaces is fixed.
- Packet protection adds 16 bytes and hides only the packet number and low bits of the first byte
  (`Coalescing.Protects`). The QPACK decoder with field validation is a function of the bytes of a
  field section.
- Times and round-trip values are real numbers.

## Model

| member | source | states |
|---|---|---|
| RangeSets.CanonicalUnique | src/aioquic/quic/rangeset.py:85-89 | for lists that are non-empty, sorted and gapped, equality of the lists is equality of the sets of integers they stand for |
| RangeSets.FirstRange | src/aioquic/quic/rangeset.py:12-43 | the first range of a canonical list is the run of integers from the least element to the first missing one; what is left is canonical |
| RangeSets.RangeSet.Add | src/aioquic/quic/rangeset.py:12-37 | add is set union and keeps the list canonical, whether it inserts, merges several ranges or appends |
| RangeSets.RangeSet.Subtract | src/aioquic/quic/rangeset.py:45-74 | subtract is set difference and keeps the list canonical; the loop ends although a split leaves the distance to the end unchanged |
| RangeSets.RangeSet.Shift | src/aioquic/quic/rangeset.py:42-43 | shift takes exactly the first run of integers out of the set |
| RangeSets.RangeSet.Bounds | src/aioquic/quic/rangeset.py:39-40 | bounds are the least element and one past the greatest |
| RangeSets.RangeSet.Has | src/aioquic/quic/rangeset.py:79-83 | membership in the list is membership in the set |
| RangeSets.RangeSet.Equals | src/aioquic/quic/rangeset.py:85-89 | comparing lists answers whether the sets are equal |
| StreamSpec.WriteKeeps | src/aioquic/quic/stream.py:326-342 | write keeps the sender invariant: every offset is in exactly one of released, acknowledged, pending, one open frame; frames carry the bytes written |
| StreamSpec.FrameShape | src/aioquic/quic/stream.py:201-247 | a returned frame is cut from pending bytes at its own offset, keeps to the credit given, carries FIN only at the very end, and its bytes leave pending; otherwise nothing changes but the idle flag |
| StreamSpec.FrameReachesFar | src/aioquic/quic/stream.py:201-247 | a frame starts at the first pending offset and ends where the run of pending bytes, the size or the credit does, never earlier; FIN comes exactly with the last offset, or alone when nothing else waits; without a frame nothing waits or there is no room |
| StreamSpec.GetFrameKeeps | src/aioquic/quic/stream.py:201-247 | get_frame keeps the sender invariant for any size and any credit |
| StreamSpec.OnDeliveryKeeps | src/aioquic/quic/stream.py:257-302 | a report keeps the sender invariant, acknowledged or lost |
| StreamSpec.AckConserves | src/aioquic/quic/stream.py:275-292 | acknowledged offsets are released exactly when they touch the released prefix; the partition of the offsets is kept |
| StreamSpec.LossConserves | src/aioquic/quic/stream.py:293-302 | a lost frame gives all its offsets back to pending; the partition is kept |
| StreamSpec.FinAssertHolds | src/aioquic/quic/stream.py:263-267 | the assertion on the end of a FIN frame never fails for a frame in flight |
| StreamSpec.EmptyMeansNothingWaits | src/aioquic/quic/stream.py:201-247 | an empty buffer with no open frame means everything was acknowledged and, after FIN, that the sender is finished |
| Streams.StreamSender.NextOffset | src/aioquic/quic/stream.py:190-199 | the next offset is the least pending one, or the end of what was written |
| Streams.StreamSender.GetFrame | src/aioquic/quic/stream.py:201-247 | the range lists, flags and buffer move exactly as the value-level sender does |
| Streams.StreamSender.CutFrame | src/aioquic/quic/stream.py:226-247 | slicing the buffer gives the bytes written at the offset; FIN is set exactly at the final offset and clears the pending FIN |
| Streams.StreamSender.OnDataDelivery | src/aioquic/quic/stream.py:257-302 | a report on an open frame moves the sender as the value-level one; the FIN assertion holds |
| Streams.StreamSender.DiscardAcked | src/aioquic/quic/stream.py:276-284 | an acknowledged range is added, and the buffer is cut where the first range reaches its start |
| Streams.StreamSender.Release | src/aioquic/quic/stream.py:279-284 | exactly the acknowledged run at the front leaves the buffer |
| Streams.StreamSender.Write | src/aioquic/quic/stream.py:326-342 | written bytes are appended and become pending; end of stream fixes the final offset |
| Streams.OverlayStores | src/aioquic/quic/stream.py:96-100 | padding the buffer and writing a frame over it stores exactly the frame at its offsets and disturbs nothing else |
| Streams.StoredThenPulled | src/aioquic/quic/stream.py:85-103 | writing a frame into the buffer and cutting the front off does what storing offsets in a map and removing the longest run does |
| Streams.StreamReceiver.HandleFrame | src/aioquic/quic/stream.py:54-113 | fast path and buffered path both do what the map of received offsets does; a final-size conflict leaves the state alone |
| Streams.StreamReceiver.InOrder | src/aioquic/quic/stream.py:75-83 | the fast path hands over what the longest run of stored offsets would be |
| Streams.StreamReceiver.StoreAndPull | src/aioquic/quic/stream.py:85-103 | the buffered path trims, pads, stores and pulls as the map of offsets does |
| Streams.StreamReceiver.PullData | src/aioquic/quic/stream.py:143-159 | the bytes returned are the run at the front, and the rest keeps its place |
| StreamRuns.ArrivalFaithful | src/aioquic/quic/stream.py:54-113 | after any arrival the output is the longest prefix whose offsets all arrived, and the stored bytes are those written |
| StreamRuns.ReportTrusting | src/aioquic/quic/stream.py:257-302 | an acknowledgement of a frame that arrived only ever covers offsets the receiver has |
| StreamRuns.StepKeeps | src/aioquic/quic/stream.py:54-342 | every write, send, arrival and report keeps the system invariant |
| StreamRuns.Run | src/aioquic/quic/stream.py:54-342 | every reachable state of sender, network and receiver satisfies the invariant |
| StreamRuns.DeliveryIsExact | src/aioquic/quic/stream.py:54-113 | in every run with loss, duplication and reordering: no final-size error; the output is exactly the longest arrived prefix of what was written; finished exactly when a FIN arrived and all bytes were handed over |
| StreamRuns.EndIsAnnounced | src/aioquic/quic/stream.py:81-113 | in every run the events handed over carry exactly the output; one of them carries the end of the stream if and only if all bytes written were handed over and a FIN arrived, and then the last one does, and no byte comes after the first that did |
| StreamRuns.FinishedMeansDelivered | src/aioquic/quic/stream.py:290-292 | with honest acknowledgements, a finished sender means a finished receiver that has handed over everything |
| StreamRuns.QuietMeansDelivered | src/aioquic/quic/stream.py:201-247 | with honest acknowledgements, an empty buffer and no open frame mean complete delivery |
| StreamRuns.IdleExactly | src/aioquic/quic/stream.py:201-342 | a sender whose buffer is marked empty stays so over every step exactly when no bytes and no FIN wait |
| StreamGuards.ReceiverStands | src/aioquic/quic/stream.py:54-113 | after any frames that were not refused, from a peer that keeps no rule: everything before the first offset none of them covered was handed over, the final size is the one a FIN gave, and the receiver is finished exactly when both meet |
| StreamGuards.RefusedExactly | src/aioquic/quic/stream.py:64-73 | of any frames whatever, one is refused if and only if it contradicts the end that an earlier FIN gave |
| StreamGuards.NewestIsHandedOver | src/aioquic/quic/stream.py:96-103 | where frames of such a peer disagree about a byte, the one handed over is that of the frame that came last before it was |
| StreamGuards.EndExactly | src/aioquic/quic/stream.py:64-73 | a FIN is not compared with bytes that came before it: after any frames that were not refused the stream can still end in some continuation if and only if no frame had a byte at an end given by FIN |
| StreamGuards.EndInsideData | src/aioquic/quic/stream.py:64-81 | two bytes and then an end after the first one are accepted, and the stream never ends; section 4.5 of RFC 9000 has such frames refused |
| StreamGuards.GuardedExactly | src/aioquic/quic/connection.py:2249-2275 | whatever frame a peer sends, it is refused for flow control if and only if it reaches beyond the limit of its stream or takes all streams together beyond the connection limit, and then for its final size alone; a refused frame changes nothing |
| StreamGuards.LimitsHold | src/aioquic/quic/connection.py:2249-2275 | however a peer behaves, what all streams together have received is counted exactly and stays within the connection limit, and each stream within its own |
| FlowControl.SendingKeeps | src/aioquic/quic/connection.py:3538-3571 | sending within both credits keeps all sums and limits in order |
| FlowControl.RoomForFrame | src/aioquic/quic/connection.py:2250-2262 | a frame an honest sender put in flight passes both checks, late, duplicated or reordered |
| FlowControl.ReceivingKeeps | src/aioquic/quic/connection.py:2250-2275 | receiving keeps the sums; neither check fires |
| FlowControl.LimitStepKeeps | src/aioquic/quic/connection.py:3289-3305 | raising, delaying, losing, announcing and receiving limits keep them in order |
| FlowControl.StepKeeps | src/aioquic/quic/connection.py:2214-2275 | every step of the two endpoints keeps the invariant |
| FlowControl.CreditIsRespected | src/aioquic/quic/connection.py:1796-1829 | in every run: sum of received highest offsets = local used <= remote used = sum of sent highest offsets <= remote limit <= local limit, likewise per stream, and no FLOW_CONTROL_ERROR or FINAL_SIZE_ERROR is ever raised |
| FlowEndpoints.FlowEndpoint.HandleMaxData | src/aioquic/quic/connection.py:1796-1798 | the limit only ever rises, to the larger value |
| FlowEndpoints.FlowEndpoint.HandleMaxStreamData | src/aioquic/quic/connection.py:1822-1829 | likewise per stream |
| FlowEndpoints.FlowEndpoint.WriteStreamFrame | src/aioquic/quic/connection.py:3520-3571 | the frame and the sender after it are those of the credit computed from both limits and of the space less the header; the credit used is counted; the call stops exactly when only a FIN waits and its header does not fit, and otherwise exactly the bytes of the frame go into the buffer, within the flight space |
| FlowEndpoints.FrameKeepsToSpace | src/aioquic/quic/connection.py:3529-3541 | the next frame starts at the next offset, so the room set aside for its header is the room its header takes, and header and data together keep to the space unless only a FIN waits and its header does not fit |
| FlowEndpoints.FlowEndpoint.HandleStreamFrame | src/aioquic/quic/connection.py:2249-2275 | both checks come first, the receiver is only touched when they pass, and newly received bytes are counted after it has accepted |
| FlowEndpoints.FlowEndpoint.WriteConnectionLimit | src/aioquic/quic/connection.py:3283-3305 | doubled when more than half is used; announced when it differs from what was sent and there is room; otherwise kept for later |
| FlowEndpoints.FlowEndpoint.WriteStreamLimit | src/aioquic/quic/connection.py:3583-3602 | likewise per stream |
| FlowEndpoints.LostIsAnnouncedAgain | src/aioquic/quic/connection.py:2353-2376 | a limit whose announcement was lost is announced again, at least as high, in exactly those runs of arriving data and attempts in which some attempt has room |
| FlowEndpoints.AckedIsNotRepeated | src/aioquic/quic/connection.py:2353-2376 | an acknowledged limit is not announced again until it is raised |
| FlowEndpoints.DroppedExactly | src/aioquic/quic/connection.py:3539-3554 | a frame is taken from the sender although its header cannot fit exactly when it is a FIN on its own |
| FlowEndpoints.ArrivalAccepted | src/aioquic/quic/stream.py:64-73 | no frame cut from one byte string raises the final-size error |
| FlowEndpoints.SendStep | src/aioquic/quic/connection.py:3520-3571 | called on objects that stand for the sending side, the method leaves objects that stand for it after the sending step of the two-endpoint system |
| FlowEndpoints.ReceiveStep | src/aioquic/quic/connection.py:2249-2275 | on a frame an honest sender put in flight the method accepts, and leaves the receiving side after the receiving step |
| FlowEndpoints.LimitStep | src/aioquic/quic/connection.py:3283-3305 | the method is the step that raises the connection limit; it is among the offers exactly when it was announced |
| FlowEndpoints.StreamLimitStep | src/aioquic/quic/connection.py:3583-3602 | likewise per stream |
| FlowEndpoints.OfferStep | src/aioquic/quic/connection.py:1796-1829 | the arrival of an announced limit is the step that raises the credit |
| FlowEndpoints.LostOfferStep | src/aioquic/quic/connection.py:2353-2376 | the loss of an announcement is the step that forgets it |
| FlowProgress.AttemptDoubles | src/aioquic/quic/connection.py:3283-3305 | in plain arithmetic: an attempt leaves twice the limit exactly when more than half of it was used, and announces it if it differs from what was sent; likewise per stream |
| FlowProgress.SendsAllItMay | src/aioquic/quic/connection.py:3538-3571 | nothing is held back: with bytes pending and room, no frame is sent exactly when the first byte is beyond the stream credit, or new with none left on the connection; and a frame that stops before the end of the run of pending bytes fills the room or uses up one of the two |
| FlowProgress.RaiseConnection | src/aioquic/quic/connection.py:3283-3305 | from every reachable state with positive limits some continuation leaves the sender credit on the connection |
| FlowProgress.RaiseStream | src/aioquic/quic/connection.py:3583-3602 | likewise credit on a stream |
| FlowProgress.DeliverAll | src/aioquic/quic/connection.py:3283-3602 | some continuation hands over everything written to a stream |
| FlowProgress.TransferGoesOn | src/aioquic/quic/connection.py:3283-3602 | in every reachable state: on a stream still open for writing, any further bytes can still all be handed over in some continuation, after everything written before, if and only if neither limit is zero |
| FinDrops.FinCanStillCome | src/aioquic/quic/connection.py:3539-3554 | after a FIN on its own was dropped, a FIN is taken or acknowledged in some continuation if and only if one was acknowledged before or another frame in flight carries FIN or the last byte written; otherwise the sender is finished after no continuation |
| FinDrops.CanStillFinish | src/aioquic/quic/stream.py:257-302 | under the very same condition some sequence of takes and reports finishes the sender, the dropped frame never being reported |
| FinDrops.EndFinishes | src/aioquic/quic/stream.py:257-302 | that sequence: the frame with the last byte is lost, sent again with FIN, and everything but the dropped frame acknowledged |
| FinDrops.DroppedForGood | src/aioquic/quic/connection.py:3539-3554 | both of the call that drops it, in terms of the sender before: a condition on the frames in flight that can be checked before the call decides whether a FIN can still come and whether the sender can ever finish |
| FinDrops.StaysHopeless | src/aioquic/quic/stream.py:201-302 | without such a frame no sequence of takes and reports brings a FIN back or leaves the sender finished |
| FinDrops.LossBringsFin | src/aioquic/quic/stream.py:293-302 | if such a frame is lost, the next frame taken carries FIN and nothing waits after it |
| FinDrops.EmptyStreamNeverEnds | src/aioquic/quic/connection.py:3539-3554 | an empty stream whose FIN does not fit its packet never ends, and its sender is never finished |
| StreamFrames.HeaderFills | src/aioquic/quic/connection.py:3529-3558 | a frame takes the overhead computed for its stream and offset, and its data |
| StreamFrames.StreamReadsBack | src/aioquic/quic/connection.py:3543-3559 | a STREAM frame reads back with its stream, offset, data and FIN, in front of any bytes, if and only if it has fewer than 0x4000 bytes of data |
| StreamFrames.SmallFramesReadBack | src/aioquic/quic/connection.py:3543-3559 | frames of at most 0x4000 bytes always read back |
| StreamFrames.AnyFormExactly | src/aioquic/quic/connection.py:2220-2248 | a STREAM frame written in any form: an absent offset is 0, an absent length takes the rest of the packet, one that reaches beyond 2^62 - 1 is an error before its data is looked at, and a length beyond the packet is refused |
| StreamFrames.PushStreamFrame | src/aioquic/quic/connection.py:3543-3559 | type, stream, offset unless it is 0, the length cut to two bytes, and the data, exactly when all of it fits |
| StreamFrames.PullStreamFrame | src/aioquic/quic/connection.py:2220-2237 | offset and length only when the type says so, the bound on their sum before the data is read, and all the rest of the packet without a length |
| StreamQueues.PassKeepsOrder | src/aioquic/quic/connection.py:3113-3160 | after every pass, also one cut short: the queue is a duplicate-free permutation of the live streams; unserved streams keep their order and stay ahead of every served one |
| StreamQueues.WaitingShrinks | src/aioquic/quic/connection.py:3113-3160 | over any number of passes and new streams, the streams ahead of a waiting one only become fewer, and each is served at most once before it |
| StreamQueues.ServedInTurn | src/aioquic/quic/connection.py:3113-3160 | no stream starves: a stream ready at every pass is served after at most as many passes as there are streams ahead of it, if every pass serves one at all |
| StreamQueues.StepShrinks | src/aioquic/quic/connection.py:3113-3160 | one pass or one new stream puts nothing ahead of a waiting stream |
| StreamQueues.ServiceQueue.CreateStream | src/aioquic/quic/connection.py:1374-1380 | a new stream joins at the end |
| StreamQueues.ServiceQueue.ServeLoop | src/aioquic/quic/connection.py:3115-3146 | the sets of sent and discarded streams are those whose turn came out so, up to the first turn that raises |
| StreamQueues.ServiceQueue.Serve | src/aioquic/quic/connection.py:3113-3160 | the new order is made whether or not the loop was cut short; finished streams move out of the live ones |
| StreamQueues.Listed | src/aioquic/quic/connection.py:3160-3160 | the members of a set in some order, each once |
| RecoverySpec.SelectNumbers | src/aioquic/quic/recovery.py:195-211 | in a list of increasing numbers a selection and its complement split the packet numbers |
| RecoverySpec.OnAllAcked | src/aioquic/quic/congestion/reno_default.py:26-42 | acknowledging packets takes their bytes out of flight and never shrinks the window |
| RecoverySpec.CutOncePerPeriod | src/aioquic/quic/congestion/reno_default.py:51-67 | after a cut, another loss cuts the window again exactly when its last packet was sent after that cut; both losses take their bytes out of flight |
| RecoverySpec.TakeKeeps | src/aioquic/quic/recovery.py:356-386 | taking packets out of a space with one report each keeps every account balanced |
| RecoverySpec.SentKeeps | src/aioquic/quic/recovery.py:269-282 | registering a packet with a fresh number keeps every account balanced |
| RecoverySpec.DiscardedKeeps | src/aioquic/quic/recovery.py:133-146 | discarding a space takes its bytes out of flight and reports nothing |
| RecoverySpec.StepKeeps | src/aioquic/quic/recovery.py:133-386 | every operation keeps the recovery invariant |
| RecoverySpec.EveryPacketHasOneFate | src/aioquic/quic/recovery.py:192-211 | in every run a packet ever sent is in exactly one place: tracked, dropped with its space, or reported; and it was reported at most once, acknowledged or lost |
| RecoverySpec.CountsAreExact | src/aioquic/quic/recovery.py:269-301 | in every run bytes in flight are the sum over the tracked in-flight packets of all spaces, and each count of ack-eliciting packets is exact |
| RecoverySpec.EarliestLossIsLeast | src/aioquic/quic/recovery.py:323-326 | the timer is the least sent time plus delay over the packets up to the largest acknowledged, and absent exactly when there are none |
| RecoverySpec.NothingLateRemains | src/aioquic/quic/recovery.py:303-328 | after a scan nothing below either threshold remains, the timer lies in the future and covers every remaining packet up to the largest acknowledged |
| RecoveryLaws.ScanExactly | src/aioquic/quic/recovery.py:303-328 | a scan takes out and reports as lost exactly the packets not above the largest acknowledged that are at least three below it or were sent at least the loss delay ago; every other packet stays |
| RecoveryLaws.AckExactly | src/aioquic/quic/recovery.py:192-211 | an ACK takes out and reports as acknowledged exactly the packets it names, and moves the largest acknowledged up |
| RecoveryLaws.CryptoExactly | src/aioquic/quic/recovery.py:284-301 | retransmission takes out and reports as lost exactly the CRYPTO packets |
| RecoveryLaws.NoCryptoLeft | src/aioquic/quic/recovery.py:284-301 | retransmission over all spaces leaves no CRYPTO packet tracked anywhere, and every other packet |
| RecoveryLaws.DiscardExactly | src/aioquic/quic/recovery.py:133-146 | discarding a space leaves nothing tracked in it, no count and no timer, reports nothing and touches no other space |
| RecoveryLaws.SlowStartExactly | src/aioquic/quic/congestion/reno_default.py:26-36 | in slow start the window grows by exactly the bytes acknowledged that were sent after the last cut |
| RecoveryLaws.SavedUp | src/aioquic/quic/congestion/reno_default.py:37-42 | in congestion avoidance less than a window of acknowledged bytes changes nothing but what is saved up |
| RecoveryLaws.RoundGrowsByOne | src/aioquic/quic/congestion/reno_default.py:37-42 | the packet that completes a window makes it one datagram larger and leaves the rest saved up |
| RecoveryLaws.SampleEndsSlowStart | src/aioquic/quic/congestion/reno_default.py:69-75 | slow start also ends, at the present window, with a sample that shows growing round trips, and with no other sample |
| RecoveryLaws.CutExactly | src/aioquic/quic/congestion/reno_default.py:51-67 | a cut leaves half the window but no less than two datagrams, ends slow start there, and happens exactly when the last packet lost was sent after the cut before |
| RecoveryLaws.NextSample | src/aioquic/quic/recovery.py:217-241 | a sample moves the smoothed value an eighth of the way to it and the variance a quarter; the acknowledgement delay, at most 25 ms, counts only if the sample stays above the minimum without it |
| RecoveryLaws.SteadySamples | src/aioquic/quic/recovery.py:217-241 | equal samples give that value, and a variance that dies out by quarters |
| RecoveryLaws.DelayIs | src/aioquic/quic/recovery.py:303-309 | losses are declared by time after nine eighths of the larger of latest and smoothed value |
| Recovery.RenoController.OnPacketAcked | src/aioquic/quic/congestion/reno_default.py:26-42 | slow start or additive increase with carried-over bytes, and nothing but the byte count within a recovery period |
| Recovery.RenoController.OnPacketsLost | src/aioquic/quic/congestion/reno_default.py:51-67 | the loop over lost packets takes out their bytes; the window is cut at most once per recovery period |
| Recovery.RenoController.OnPacketsExpired | src/aioquic/quic/congestion/reno_default.py:47-49 | expired packets leave the byte count and nothing else changes |
| Recovery.WithoutSelected | src/aioquic/quic/recovery.py:360-361 | deleting the selected packets one by one, by number, leaves the packets that were not selected |
| Recovery.NothingAbove | src/aioquic/quic/recovery.py:317-319 | stopping at the first number above the largest acknowledged selects what a full filter would |
| Recovery.NoTimerAbove | src/aioquic/quic/recovery.py:317-319 | packets above the largest acknowledged never set the timer |
| Recovery.PacketRecovery.OnPacketSent | src/aioquic/quic/recovery.py:269-282 | the packet joins its space and, if in flight, the byte count |
| Recovery.PacketRecovery.DiscardSpace | src/aioquic/quic/recovery.py:133-146 | the space is emptied, its bytes leave the count, and the probe count is reset |
| Recovery.PacketRecovery.RemoveAcked | src/aioquic/quic/recovery.py:192-211 | the loop over sorted numbers with its early break removes and reports exactly the acknowledged packets |
| Recovery.PacketRecovery.ScanForLoss | src/aioquic/quic/recovery.py:303-326 | the early-break loop finds exactly the packets a full filter would, and the least loss time of the rest |
| Recovery.PacketRecovery.DetectLoss | src/aioquic/quic/recovery.py:303-328 | scan, timer and removal together |
| Recovery.PacketRecovery.OnPacketsLost | src/aioquic/quic/recovery.py:356-386 | each lost packet leaves the space and is reported once; the controller hears only of those in flight |
| Recovery.PacketRecovery.OnAckReceived | src/aioquic/quic/recovery.py:176-256 | nothing follows when no packet is newly acknowledged; a round-trip sample is taken exactly when the largest one is new and something eliciting was acknowledged; then losses are detected and the probe count is reset |
| Recovery.PacketRecovery.RescheduleData | src/aioquic/quic/recovery.py:284-301 | the CRYPTO packets of every space count as lost, and one probe is asked for |
| Recovery.PacketRecovery.GetLossSpace | src/aioquic/quic/recovery.py:330-337 | the space with the earliest loss time, none exactly when no space has one |
| Recovery.PacketRecovery.OnLossDetectionTimeout | src/aioquic/quic/recovery.py:261-267 | the earliest space is scanned, or else the probe count grows and CRYPTO data is sent again |
| Recovery.AckIsOrdered | src/aioquic/quic/recovery.py:192-211 | removing acknowledged packets keeps the space in the order of packet numbers |
| Recovery.TimerFirst | src/aioquic/quic/recovery.py:316-328 | setting the timer before the lost packets are removed comes to the same |
| RecoveryRuns.AckReaches | src/aioquic/quic/recovery.py:176-256 | handling an ACK frame leads from a reachable state to a reachable one, so the statements over all runs hold of the handler |
| RecoveryRuns.CryptoReaches | src/aioquic/quic/recovery.py:284-301 | so does retransmitting CRYPTO data |
| RecoveryRuns.EstimateBounds | src/aioquic/quic/recovery.py:224-241 | after any samples: the minimum is the least sample cut off at a millisecond; minimum <= latest <= largest sample; the smoothed value and the variance stay within the largest sample; time alone never declares a loss sooner than 9/8 ms |
| RecoveryRuns.SmoothedFloor | src/aioquic/quic/recovery.py:231-241 | the smoothed value stays at or above a millisecond in every state exactly when the first sample does, as that one is taken without the lower limit |
| TransportRuns.TakenIsNew | src/aioquic/quic/connection.py:3520-3571 | the frames taken for a packet are new, different from each other, and in flight |
| TransportRuns.CarriedDistinct | src/aioquic/quic/recovery.py:192-211 | packets of a space carry no frame twice |
| TransportRuns.ToldIsRight | src/aioquic/quic/stream.py:257-302 | reports on different frames in flight, acknowledged only if they arrived, go through one by one and touch no other frame |
| TransportRuns.ReportedKeeps | src/aioquic/quic/recovery.py:192-211 | when packets leave recovery, every delivery handler run is for a frame in flight, and the frames of the packets that stay are untouched |
| TransportRuns.StepKeeps | src/aioquic/quic/recovery.py:192-386 | writing, sending, arriving, acknowledging, losing, rescheduling and discarding keep streams and recovery in step |
| TransportRuns.EveryStreamDelivers | src/aioquic/quic/recovery.py:192-211 | in every run in which packets and ACK frames are lost, duplicated and reordered: no handler is run twice for a frame or for one that did not arrive, and for every stream a finished sender means complete delivery |
| TransportRuns.TrackedIsInFlight | src/aioquic/quic/recovery.py:192-211 | while a packet is tracked, each of its frames is in flight and in no other packet |
| TransportOwed.AckReachesFrames | src/aioquic/quic/recovery.py:192-211 | an ACK that names a tracked packet settles every frame it carried: its bytes are acknowledged or released, and its FIN is acknowledged |
| TransportOwed.LossReachesFrames | src/aioquic/quic/recovery.py:303-386 | a packet three below the largest acknowledged, or late, puts the bytes and the FIN of every frame it carried back among what waits to be sent |
| TransportOwed.EveryFrameIsOwed | src/aioquic/quic/recovery.py:192-386 | in every run each frame in flight is in a packet that is still tracked, so that its report is to come, unless it was dropped before it went into a packet or the space of its packet was discarded |
| Buffers.BigEndianInverse | src/aioquic/_buffer.c:209-268 | writing an integer in n bytes and reading it back gives it modulo 256 to the n |
| Buffers.ReadsBack | src/aioquic/_buffer.c:104-153 | an integer that fits reads back exactly, whatever follows |
| Buffers.VarRoundTrip | src/aioquic/_buffer.c:155-192 | every value below 2^62 round-trips as a varint, in the number of bytes size_uint_var predicts (section 16 of RFC 9000) |
| Buffers.TaggedReadsBack | src/aioquic/_buffer.c:270-308 | a value with a size tag in its two high bits reads back for any tag and size |
| Buffers.Buffer.PushBytes | src/aioquic/_buffer.c:194-207 | bytes are written at the cursor exactly when they fit; a refused write changes nothing |
| Buffers.Buffer.PushUint | src/aioquic/_buffer.c:209-268 | fixed-width writes keep the low bytes, most significant first |
| Buffers.Buffer.PushUintVar | src/aioquic/_buffer.c:270-308 | a varint is written exactly when the value taken modulo 2^64 is in range and fits |
| Buffers.Buffer.PullBytes | src/aioquic/_buffer.c:90-102 | as many bytes as asked for, exactly when there are so many and the count is not negative |
| Buffers.Buffer.PullUint | src/aioquic/_buffer.c:104-153 | fixed-width reads, most significant byte first |
| Buffers.Buffer.PullUintVar | src/aioquic/_buffer.c:155-192 | the value the varint decoder gives, exactly when it gives one; a short buffer leaves the cursor |
| Buffers.Buffer.Seek | src/aioquic/_buffer.c:310-324 | the cursor moves exactly when the position is within the buffer |
| Buffers.Buffer.DataSlice | src/aioquic/_buffer.c:65-80 | a slice of the whole buffer, independent of the cursor, exactly for proper bounds |
| Buffers.Buffer.Eof | src/aioquic/_buffer.c:82-88 | true exactly when nothing is left to read |
| AckFrames.AckRoundTrip | src/aioquic/quic/packet.py:609-640 | for every canonical non-empty set of numbers below 2^62, pull_ack_frame after push_ack_frame gives the same set, the same list of ranges and the same delay, and leaves the bytes after the frame |
| AckFrames.GapsRoundTrip | src/aioquic/quic/packet.py:612-640 | gaps and lengths, highest range first, decode to exactly the ranges below the top one |
| AckFrames.GapsStep | src/aioquic/quic/packet.py:634-640 | no pushed gap or length is negative |
| AckFrames.FitsNumbers | src/aioquic/quic/packet.py:625-630 | the count of ranges always fits a varint |
| AckFrames.PushAckFrame | src/aioquic/quic/packet.py:625-640 | the frame is written exactly when all of it fits |
| AckFrames.PushGaps | src/aioquic/quic/packet.py:631-640 | the downward loop over the lower ranges writes exactly their gaps and lengths |
| AckFrames.PullAckFrame | src/aioquic/quic/packet.py:609-622 | the range set read is the set the frame stands for, for any input, with failure exactly on a short buffer |
| AckFrames.PullRanges | src/aioquic/quic/packet.py:615-621 | the loop adds exactly the lower ranges |
| PacketNumbers.RecoveredExactly | src/aioquic/quic/packet.py:118-132 | a number survives truncation to its low bits if and only if it lies within half a window of the expected one, or in the window at either end of the number space |
| PacketNumbers.ExpectedFollowsLargest | src/aioquic/quic/connection.py:988-990 | over any run of received numbers the expected number is the largest received or one more |
| PacketNumbers.EveryNumberRecovered | src/aioquic/quic/packet.py:118-132 | over any run in which each number arrives within half a window of the next expected, every number is recovered from the 16 bits sent |
| H3Spec.HeaderShortens | src/aioquic/h3/connection.py:962-968 | a frame header takes at least two bytes, so the loop makes progress |
| H3Spec.TakePayload | src/aioquic/h3/connection.py:1011-1020 | an open frame keeps its type while payload is taken off |
| H3Chunks.MicroExtends | src/aioquic/h3/connection.py:957-1039 | bytes that arrive later never change what the smallest parsing step made of the earlier ones |
| H3Chunks.IterateExtends | src/aioquic/h3/connection.py:957-1039 | parsing a prefix and going on with the rest is parsing the whole |
| H3Chunks.LoopAgrees | src/aioquic/h3/connection.py:957-1039 | the loop does what a parser does that takes one header, one data byte or one whole frame at a time |
| H3Chunks.ReceiveAgrees | src/aioquic/h3/connection.py:902-1039 | each of the shortcuts and the loop does what that parser does from any resting state |
| H3Chunks.FeedAgrees | src/aioquic/h3/connection.py:902-1039 | so does any sequence of chunks, on the concatenated bytes |
| H3Chunks.CutAnyhow | src/aioquic/h3/connection.py:902-1039 | any two ways of cutting the same bytes into chunks both fail or give the same fields, data bytes and promises in the same order and the same residual buffer, frame type and frame size |
| H3Chunks.HeaderReadsBack | src/aioquic/h3/connection.py:158-164 | the header encode_frame writes reads back in front of any bytes |
| H3Chunks.FramesReadBack | src/aioquic/h3/connection.py:158-164 | frames made by encode_frame, however cut, are handled as exactly those frames in order, and the stream ends between frames |
| H3Chunks.WholeFrame | src/aioquic/h3/connection.py:902-1039 | a frame that arrives whole between frames is handled at once, with or without the end of the stream |
| H3Ends.HandleEnds | src/aioquic/h3/connection.py:707-835 | DATA and HEADERS frames report an end that comes with them, or fail on the declared length; no other frame does either |
| H3Ends.LoopEnds | src/aioquic/h3/connection.py:957-1039 | for any bytes, what the loop reports of an end that comes with them depends on where they stop: inside or at the end of a DATA frame, at the end of a HEADERS frame, or in a tunnel |
| H3Ends.LateEnds | src/aioquic/h3/connection.py:924-955 | what is reported of an end that comes later: nothing inside a DATA frame, because of the shortcut, and an end wherever nothing is buffered |
| H3Ends.EndTogetherOrApart | src/aioquic/h3/connection.py:902-1039 | from any state between two calls, the end with some bytes and the end after them have the same outcome if and only if the bytes stop in a tunnel, in a header, at the end of a DATA or HEADERS frame, inside a frame that has to be whole with payload waiting, or stay inside the DATA frame that was open |
| H3Ends.EndAnyhow | src/aioquic/h3/connection.py:902-1039 | the same for any two ways of cutting a stream into chunks, one with the end on its last chunk and one with the end alone |
| H3Ends.TruncatedData | src/aioquic/h3/connection.py:924-940 | a cut-off DATA frame whose header comes with the end is reported as the end of the stream; the same frame followed by the end is not |
| H3Shape.ReceiveShape | src/aioquic/h3/connection.py:894-1039 | one call keeps the bookkeeping in step with the events reported so far |
| H3Shape.MessageShape | src/aioquic/h3/connection.py:700-788 | over every run of a fresh stream: data lies between first and second field section, there are at most two, the counted length is the data reported, and an event that ends the message is the last of its call and comes only when the length kept, if any, is that of the data |
| H3Lengths.DeclaredIsKept | src/aioquic/h3/connection.py:270-283 | over every run of a fresh stream the content-length kept is the one that the first field section in the bytes received declares, whatever comes later, trailers included |
| H3Lengths.MessageMeetsLength | src/aioquic/h3/connection.py:700-788 | an event that ends the message is reported only when the data reported adds up to that declared length |
| H3Lengths.WrongLengthRefused | src/aioquic/h3/connection.py:700-945 | if a run goes through without the end, the same run with the end at its last bytes fails if and only if these bytes make the call check the length and the data does not add up to the one declared |
| H3Lengths.ShortMessageRefused | src/aioquic/h3/connection.py:700-772 | a message that declares ten bytes and ends with its field section is refused |
| H3Grammar.PlacedExactly | src/aioquic/h3/connection.py:707-835 | what one frame may do after so many field sections, frame type by frame type |
| H3Grammar.AcceptedExactly | src/aioquic/h3/connection.py:707-1039 | however the bytes of some frames are cut, a fresh stream accepts them if and only if every frame may stand where it does: DATA between the first and second HEADERS, two HEADERS at most whose sections decode as message and trailers, PUSH_PROMISE only towards a client outside pushes, no frame type of other streams; the events are exactly those of the frames, in order |
| H3.EncodeFrame | src/aioquic/h3/connection.py:158-164 | type, size and payload in that order; the buffer always has room |
| H3.H3Stream.CheckContentLength | src/aioquic/h3/connection.py:700-705 | fails exactly when a declared length differs from the counted one |
| H3.H3Stream.HandleFrame | src/aioquic/h3/connection.py:707-835 | state, counters and events are those of the frame type in the current state, or an error |
| H3.H3Stream.FetchHeader | src/aioquic/h3/connection.py:962-968 | a type without a size is kept and the header is read again later |
| H3.H3Stream.PullChunk | src/aioquic/h3/connection.py:1006-1020 | the available part of the payload leaves the buffer, and the frame closes exactly when none is missing |
| H3.H3Stream.Parse | src/aioquic/h3/connection.py:954-1039 | the loop with its consumed counter computes what the recursive parser does, and ends |
| H3.H3Stream.Receive | src/aioquic/h3/connection.py:894-1039 | buffering, both shortcuts, the lone end and the loop together compute the value-level result |
| TlsSchedule.SecretsBindHistory | src/aioquic/tls.py:1064-1092 | two schedules derive the same secret if and only if hash function, label, the keys extracted in order and the messages hashed are the same |
| TlsSchedule.FinishedBindsHistory | src/aioquic/tls.py:1051-1062 | verify data are the same if and only if hash function, base secret and messages are |
| TlsContexts.Context.ComputeBinder | src/aioquic/tls.py:1578-1604 | the binder of an offer under a ticket, and a schedule that has hashed the offer up to the binder |
| TlsContexts.Context.ClientSendHello | src/aioquic/tls.py:1522-1622 | shares, ticket offer with binder and early key, and the proxy schedules of all suites |
| TlsContexts.Context.SelectSchedule | src/aioquic/tls.py:1641-1654 | the ticket schedule when the server chose it, else the proxy schedule of the suite; the other one is dropped |
| TlsContexts.Context.HandleServerHello | src/aioquic/tls.py:1624-1685 | rejects unknown suites and unoffered tickets, agrees on the shared key and installs the server handshake key |
| TlsContexts.Context.HandleEncryptedExtensions | src/aioquic/tls.py:1687-1707 | the client handshake key is installed before the message is hashed |
| TlsContexts.Context.HandleCertificate | src/aioquic/tls.py:1714-1719 | the message is hashed before its chain is looked at; an empty chain is the index error of reading its first certificate |
| TlsContexts.Context.HandleCertificateVerify | src/aioquic/tls.py:1721-1739 | the signature is checked over the transcript before the message is hashed |
| TlsContexts.Context.HandleServerFinished | src/aioquic/tls.py:1741-1820 | the Finished is checked before it is hashed; then application keys, certificates if asked for, and the client Finished |
| TlsContexts.Context.HandleNewSessionTicket | src/aioquic/tls.py:1822-1830 | the resumption secret comes from the final transcript |
| TlsContexts.Context.HandleClientHello | src/aioquic/tls.py:1865-2092 | the whole server flight: choice, binder check, hellos, keys, certificates and Finished |
| TlsContexts.Context.ExpectFinished | src/aioquic/tls.py:1832-1863 | the expected Finished is computed and hashed before the client sends it, and the ticket is issued on that transcript |
| TlsContexts.Context.HandleClientCertificate | src/aioquic/tls.py:2094-2102 | an empty chain goes on to the Finished, any other to its verification |
| TlsContexts.Context.HandleClientVerify | src/aioquic/tls.py:2104-2113 | the signature is checked, then the Finished is expected |
| TlsContexts.Context.HandleClientFinished | src/aioquic/tls.py:2115-2132 | verify data must be the expected ones; then the prepared key is installed |
| TlsContexts.Context.HandleAsClient | src/aioquic/tls.py:1390-1468 | every message goes to the handler of the current state or is refused |
| TlsContexts.Context.HandleAsServer | src/aioquic/tls.py:1390-1468 | likewise on the server |
| TlsSpec.Negotiate | src/aioquic/tls.py:1172-1182 | the first supported value that is offered, none exactly when there is none |
| TlsSpec.UsableShare | src/aioquic/tls.py:1981-1999 | the first offered share of a group that can be exchanged, none exactly when there is none |
| TlsRuns.BinderMatches | src/aioquic/tls.py:1938-1950 | with free symbols the server accepts a binder if and only if both sides hold the same ticket secret and their cipher suites use the same hash function |
| TlsRuns.HelloOpens | src/aioquic/tls.py:1916-1974 | an answerable hello leaves the server on the very schedule the client will select |
| TlsRuns.OpeningHandled | src/aioquic/tls.py:1687-1707 | after the hellos both sides hold the same secrets exactly if the client kept the key of the share that was used |
| TlsRuns.CertifiedHandled | src/aioquic/tls.py:1714-1739 | everything before the Finished is accepted by a client in step, certificate or ticket |
| TlsRuns.FinishHandled | src/aioquic/tls.py:1744-1756 | both sides derive the same application secrets, and the generation assertion holds |
| TlsRuns.AnswerHandled | src/aioquic/tls.py:1758-1800 | a client certificate, or an empty one, leads the server to the same expected Finished |
| TlsRuns.WrongSecretRejected | src/aioquic/tls.py:1744-1747 | a client with another handshake secret rejects the Finished |
| TlsRuns.ExchangeOutcome | src/aioquic/tls.py:1624-2132 | for all configurations the exchange ends with nothing left to say; both sides complete if and only if the configurations are compatible |
| TlsRuns.RunsStayBelow | src/aioquic/tls.py:1359-1388 | no order of delivery gets past the end of that exchange |
| TlsRuns.QuietIsEnd | src/aioquic/tls.py:1359-1388 | every run with nothing left to deliver has reached it |
| TlsRuns.RunsComplete | src/aioquic/tls.py:1359-1388 | no run gets stuck: every run, whatever the configurations, goes on to one with nothing left to deliver |
| TlsRuns.EveryRun | src/aioquic/tls.py:1751-1751 | in every state of every run, for all configurations, the generation assertions hold and the number of steps is bounded |
| TlsRuns.KeysAlwaysAgree | src/aioquic/tls.py:2134-2146 | compatible endpoints never hold traffic keys of one epoch and direction that differ in secret or suite, at any point of any run |
| TlsRuns.CompleteExactlyWhenCompatible | src/aioquic/tls.py:1624-2132 | a finished run has both sides in POST_HANDSHAKE if and only if a checkable condition on the two configurations holds, and then with the same schedule, mirrored keys and the same ticket secrets |
| TlsRuns.ResumptionWithCertificateRequestStalls | src/aioquic/tls.py:2088-2092 | a resuming server that also asks for a client certificate fails on the client Finished |
| TlsRuns.RepeatedGroupFails | src/aioquic/tls.py:1522-1545 | a client that lists one group twice offers its first key and keeps its last, and rejects the server |
| TlsHistory.HelloTerms | src/aioquic/tls.py:1578-1622 | the binder is the verify data of section 4.2.11.2 of RFC 8446 over the hello up to itself, and the early key covers the whole hello |
| TlsHistory.ClientHistory | src/aioquic/tls.py:1624-1830 | whatever messages a client is given, from whomever: unless it has given up, they came in the order of the handshake; its transcript is its hello, all of them in order, tickets aside, and its own answer; every secret it holds is the term of section 7.1 of RFC 8446 over the prefix its phase stands for; and when it has finished, the Finished of the server covered everything before it, and so did the signature of a trusted certificate, unless it resumes from its own ticket |
| TlsServerHistory.ServerHistory | src/aioquic/tls.py:1832-2132 | likewise for a server, which also sends exactly its flight and perhaps one ticket, uses a ticket only if the binder was made with its secret, and finishes only if the Finished of the client, and the signature of its certificate if it sent one, cover everything before them |
| TlsTranscripts.ExchangeTranscript | src/aioquic/tls.py:1624-2132 | at the end of every compatible exchange both transcripts are the hello of the client, every message of the server and every further message of the client, in order and whole, tickets aside |
| TlsTranscripts.SecretsCover | src/aioquic/tls.py:2134-2146 | then the handshake secrets cover that transcript up to the ServerHello, the application secrets up to the Finished of the server, and ticket secrets all of it |
| TlsOutcomes.OfferExactly | src/aioquic/tls.py:1546-1622 | what a client offers: suites, algorithms, protocols, the PSK mode when it can resume or wants tickets, a ticket and early data exactly when it holds a valid one |
| TlsOutcomes.SharesExactly | src/aioquic/tls.py:1522-1545 | one share with its key for each group P-256, P-384, P-521, X25519 and X448 in turn, an empty one for GREASE, none for any other |
| TlsOutcomes.CompatibleExactly | src/aioquic/tls.py:1624-2132 | two endpoints complete if and only if, in terms of the configurations alone: suites, algorithms and protocols overlap, some group can be exchanged, the first and last key of the first such group are the same, and, if the server finds the ticket offered valid and made for the suite it chooses, both hold the same secret and suite for it and no certificate is asked of the client, and else the client trusts the certificate of the server |
| TlsOutcomes.EndsAgree | src/aioquic/tls.py:1624-2132 | at the end of every exchange that completes both agree on the first suite and first protocol of the server that the client offers, on resumption and early data, and on the master secret over the ticket and the keys exchanged in the first group that could be; the client knows the certificate of the server unless it resumes; one ticket was issued exactly if the server issues any and the client holds one or wants some |
| TlsOutcomes.ServerKnowsClient | src/aioquic/tls.py:1758-1800 | a client that can sign as asked shows its certificate, and the server knows it in the end |
| TlsHandshakes.Handshake | src/aioquic/tls.py:1359-1388 | two context objects that exchange messages in any order until nothing is left both complete if and only if the configurations are compatible, and then hold the same schedule, mirrored keys and the same ticket secrets; the generation assertions hold |
| TlsHandshakes.ClientRound | src/aioquic/tls.py:1366-1388 | one message for the client moves its context, and what is on its way, one step along the run |
| TlsHandshakes.ServerRound | src/aioquic/tls.py:1366-1388 | likewise on the server |
| TlsHandshakes.Arrives | src/aioquic/tls.py:1366-1388 | a delivery makes a longer run, and no run is longer than the exchange |
| TlsCodec.OpaqueReadsBack | src/aioquic/tls.py:446-460 | an opaque value reads back from its length-prefixed block, whatever follows |
| TlsCodec.ListReadsBack | src/aioquic/tls.py:417-443 | a list reads back item by item for every item parser that inverts its writer |
| TlsCodec.AlpnInverts | src/aioquic/tls.py:509-520 | ASCII protocol names read back; others would be skipped |
| TlsCodec.KeyShareInverts | src/aioquic/tls.py:495-504 | a key share reads back |
| TlsCodec.IdentityInverts | src/aioquic/tls.py:534-542 | a ticket identity with its age reads back |
| TlsHello.FieldReadsBack | src/aioquic/tls.py:627-661 | each extension body reads back as what it was written from |
| TlsHello.FieldsRestore | src/aioquic/tls.py:667-715 | setting the extensions in the order they are written restores every field of the hello |
| TlsHello.HelloRoundTrip | src/aioquic/tls.py:611-715 | pull_client_hello after push_client_hello gives the same hello for every hello whose sizes fit and whose other extensions are of unknown types, whatever follows |
| TlsHello.HelloSplits | src/aioquic/tls.py:1593-1597 | a hello with one binder ends with that binder, and what precedes it depends only on its length |
| TlsHello.BinderTranscript | src/aioquic/tls.py:1593-1604 | replacing the binder by one of equal length changes only the last bytes, so the three pieces the client hashes are exactly the message it sends, and the server finds the binder at the end (section 4.2.11.2 of RFC 8446) |
| TlsStrictness.ListExactly | src/aioquic/tls.py:417-432 | a list is read if and only if its length ends where an item does; it gives the items before that place |
| TlsStrictness.NamesExactly | src/aioquic/tls.py:509-516 | protocol names outside ASCII are skipped, the others kept in order |
| TlsStrictness.ExtensionsExactly | src/aioquic/tls.py:623-663 | a list of extensions is read if and only if nothing follows the ticket offer; it then sets them all in order |
| TlsStrictness.NameExactly | src/aioquic/tls.py:472-480 | a server name is read if and only if its kind is 0, it is ASCII and both lengths agree |
| TlsStrictness.HelloExactly | src/aioquic/tls.py:611-664 | of a message with its type, length and version replaced, exactly the right ones are read |
| TlsWriter.BeginBlock | src/aioquic/tls.py:395-404 | room for a length is left by moving the cursor |
| TlsWriter.EndBlock | src/aioquic/tls.py:404-410 | going back, writing the length and returning gives the length-prefixed block, exactly when the length fits its field |
| TlsWriter.PushUints | src/aioquic/tls.py:435-443 | a list of fixed-width integers in one block |
| TlsWriter.PushOpaques | src/aioquic/tls.py:435-460 | a list of opaque values, block in block |
| TlsWriter.PushServerName | src/aioquic/tls.py:483-486 | a name in a block in a block |
| TlsWriter.PushPsks | src/aioquic/tls.py:560-572 | identities and binders |
| TlsWriter.PushExtension | src/aioquic/tls.py:463-466 | a type and a block around the body |
| TlsWriter.PushFields | src/aioquic/tls.py:679-715 | the extensions in their order, the optional ones only when present |
| TlsWriter.PushHello | src/aioquic/tls.py:667-715 | the message is written exactly when all nested lengths fit and there is room |
| TlsWriter.WrittenReadsBack | src/aioquic/tls.py:611-715 | a fitting hello is writable, and the bytes written read back as it |
| TlsReader.PullUints | src/aioquic/tls.py:417-432 | the loop up to the end of the block reads the list, and fails on extra or missing bytes |
| TlsReader.PullAlpnProtocols | src/aioquic/tls.py:509-516 | names that are not ASCII are skipped without ending the list |
| TlsReader.PullHostName | src/aioquic/tls.py:472-480 | an unknown name type or bytes left in the block are errors |
| TlsReader.PullOfferedPsks | src/aioquic/tls.py:553-557 | identities, then binders |
| TlsReader.PullBody | src/aioquic/tls.py:635-661 | each known extension is read by its own parser, an unknown one as bytes |
| TlsReader.PullExtensions | src/aioquic/tls.py:623-663 | the loop over extensions; nothing may follow the ticket offer |
| TlsReader.PullClientHello | src/aioquic/tls.py:611-664 | the cursor reader accepts exactly the messages the value-level reader does, with the same result |
| Headers.LongFirstByte | src/aioquic/quic/packet.py:270-285 | form, fixed bit, version-dependent type and four low bits, each of which reads back |
| Headers.HeaderMeasure | src/aioquic/quic/packet.py:181-267 | a readable header gives a packet length that is positive and within the datagram |
| HeaderLaws.ShortExactly | src/aioquic/quic/packet.py:247-256 | a short header is accepted exactly with its fixed bit and a whole connection ID of the length the host uses |
| HeaderLaws.LongExactly | src/aioquic/quic/packet.py:181-267 | a long header is accepted if and only if its connection IDs are whole and at most 20 bytes long, the fixed bit is set or the version is 0, and what follows is whole by type: versions, token and tag, or a length the datagram can hold; every field read is the one written |
| HeaderWriters.EncodeRetry | src/aioquic/quic/packet.py:288-314 | front, then the tag over the packet after the original connection ID, in a buffer that is exactly filled |
| HeaderWriters.EncodeNegotiation | src/aioquic/quic/packet.py:317-334 | a first byte with random low bits, version 0, the connection IDs and the versions |
| HeaderWriters.RetryReadsBack | src/aioquic/quic/packet.py:181-314 | a Retry packet reads back with its token and tag if and only if its connection IDs have at most 20 bytes |
| HeaderWriters.RetryVerifies | src/aioquic/quic/packet.py:135-160 | the tag read is the one that a client which used the original connection ID computes over the rest |
| HeaderWriters.NegotiationReadsBack | src/aioquic/quic/packet.py:181-334 | a version negotiation packet reads back with its versions, whatever its low seven bits, if and only if its connection IDs have at most 20 bytes |
| HeaderReaders.PullSupportedVersions | src/aioquic/quic/packet.py:210-213 | the versions up to the end of the datagram |
| HeaderReaders.PullLongFields | src/aioquic/quic/packet.py:227-239 | token, integrity tag and rest length by packet type |
| HeaderReaders.PullQuicHeader | src/aioquic/quic/packet.py:181-267 | the cursor reader gives the header the value-level reader does, failing on exactly the same inputs |
| HeaderReaders.SplitDatagram | src/aioquic/quic/connection.py:795-1085 | the walk over a datagram cuts it at the packet lengths its headers give |
| Coalescing.HeaderFills | src/aioquic/quic/packet_builder.py:223-230 | the room reserved for a header is filled exactly |
| Coalescing.LengthReadsBack | src/aioquic/quic/packet_builder.py:328-328 | a length reads back from the two-byte field in front of any bytes if and only if it is below 0x4000 |
| Coalescing.LongLengthsAreLost | src/aioquic/quic/packet_builder.py:328-328 | the first length that does not: 0x4000 is written as 0 |
| Coalescing.PacketReads | src/aioquic/quic/packet_builder.py:293-351 | every protected packet has its exact size; its header, length and number offset read back, in front of any bytes if it is long, if and only if its length fits |
| Coalescing.PaddingRejected | src/aioquic/quic/packet_builder.py:368-384 | zero bytes after the last packet are not taken for another one |
| Coalescing.SplitUndoesJoin | src/aioquic/quic/connection.py:795-1085 | the walk over joined packets and padding gives exactly those packets, with their own headers, number offsets and bytes, if and only if every length fits |
| BuilderRuns.SealReads | src/aioquic/quic/packet_builder.py:264-354 | a sealed packet has the size it is recorded with and the next number, and reads back if and only if a condition on the packet before the call holds |
| BuilderRuns.SmallDatagramsFit | src/aioquic/quic/packet_builder.py:264-354 | in datagrams of at most 0x4000 bytes that condition always holds |
| BuilderRuns.FlushKeeps | src/aioquic/quic/packet_builder.py:368-384 | handing a datagram over keeps all accounts |
| BuilderRuns.EndKeeps | src/aioquic/quic/packet_builder.py:260-366 | ending a packet keeps all accounts |
| BuilderRuns.StartKeeps | src/aioquic/quic/packet_builder.py:184-258 | starting a packet, with the flush and the datagram it may bring, keeps all accounts |
| BuilderRuns.RunKeeps | src/aioquic/quic/packet_builder.py:157-366 | any sequence of packets and frames keeps all accounts |
| BuilderRuns.EveryDatagram | src/aioquic/quic/packet_builder.py:143-384 | every datagram handed over splits into exactly the packets put into it if and only if no long-header packet in it is too long for its length field; a short-header packet is last and unpadded; the datagram reaches its flight capacity if it carries an INITIAL that needs it; packets are numbered consecutively, and the total and flight bytes are the exact sums (section 14.1 of RFC 9000) |
| BuilderContents.HeaderSays | src/aioquic/quic/packet_builder.py:305-339 | a header of either form ends with the low 16 bits of the packet number and says that it has two bytes of it; the first byte of a short one carries fixed bit, spin bit and key phase |
| BuilderContents.PacketsSayWhatWasWritten | src/aioquic/quic/packet_builder.py:157-366 | over every run the packets handed over are, one by one, in order and numbered one after the other, what the writers wrote: every frame accepted, in its packet, in order, under its keys, behind a header that shows the number; they elicit acknowledgements, count as in flight and as CRYPTO packets as their frame types do |
| BuilderContents.ReadsOne | src/aioquic/quic/connection.py:960-990 | a receiver that can undo the protection of a packet reads the frames from it, and its number if and only if that is recoverable from 16 bits |
| BuilderContents.EveryNumberIsRead | src/aioquic/quic/connection.py:960-990 | whatever packets arrive, in any order and however often, each within half a window of the next expected: the number of each is read from its bytes |
| BuilderContents.EveryPacketIsRead | src/aioquic/quic/connection.py:960-990 | the same of any packets of any run of the builder |
| BuilderLengths.SmallAlwaysSplit | src/aioquic/quic/packet_builder.py:143-384 | below a datagram size given by the connection IDs, every datagram of every run splits into its packets |
| BuilderLengths.LongRunFails | src/aioquic/quic/packet_builder.py:293-328 | from that size on, a run with a single CRYPTO frame makes a datagram that does not |
| BuilderLengths.SplitsExactly | src/aioquic/quic/packet_builder.py:143-384 | so, without budgets, all runs make datagrams that split if and only if datagrams are shorter than that |
| BuilderBudgets.StartsExactly | src/aioquic/quic/packet_builder.py:184-258 | a packet is started exactly when its header leaves room in its datagram; a datagram with less than 128 bytes left is finished first, and a new one may use what the total budget leaves, and of that what the flight budget leaves |
| BuilderBudgets.FrameStartsExactly | src/aioquic/quic/packet_builder.py:157-166 | a frame is started exactly when the room it asks for is there, also in the flight unless its type does not count as in flight |
| BuilderBudgets.OverrunsExactly | src/aioquic/quic/packet_builder.py:264-297 | a packet whose writers kept to the room granted overruns the capacity if and only if its payload is one byte and no room is left |
| BuilderBudgets.RunInBudget | src/aioquic/quic/packet_builder.py:157-258 | writers that keep to the room granted keep the builder within its buffer |
| BuilderBudgets.TotalInBudget | src/aioquic/quic/packet_builder.py:143-384 | then no write breaks, no datagram is too long and the total stays within its budget |
| BuilderBudgets.OneBytePayloadOverruns | src/aioquic/quic/packet_builder.py:268-297 | one byte in a full packet takes the total one past its budget |
| BuilderFlights.EndFlight | src/aioquic/quic/packet_builder.py:260-366 | ending a packet keeps the bytes in flight within the flight budget if and only if the packet, when it is in flight or has a payload of one byte, fits what is left of it |
| BuilderFlights.FlightInBudget | src/aioquic/quic/packet_builder.py:143-384 | over every run, the bytes of the packets in flight and the padding are none or within the flight budget if and only if every packet fit what was left of it when it was ended |
| BuilderFlights.GrantedFlightKept | src/aioquic/quic/packet_builder.py:132-182 | writers that keep to the flight space whenever their frame or their packet is in flight, and end no packet of one byte without a byte left, keep all packets within the budget |
| BuilderFlights.OneByteOverruns | src/aioquic/quic/packet_builder.py:267-297 | a packet with one byte and no room left takes the flight past its budget |
| BuilderFlights.AckOverruns | src/aioquic/quic/packet_builder.py:167-174 | so does a frame that is not in flight in a packet that is, by any number of bytes the datagram has room for |
| Builders.PacketBuilder.RemainingBufferSpace | src/aioquic/quic/packet_builder.py:120-129 | buffer capacity less position less tag |
| Builders.PacketBuilder.RemainingFlightSpace | src/aioquic/quic/packet_builder.py:132-141 | flight capacity less position less tag |
| Builders.PacketBuilder.StartPacket | src/aioquic/quic/packet_builder.py:184-258 | ends the open packet, flushes a full datagram, begins a new one from the budgets, and reserves the header, or stops |
| Builders.PacketBuilder.StartFrame | src/aioquic/quic/packet_builder.py:157-182 | stops when the room asked for is missing; else writes the type and marks the packet |
| Builders.PacketBuilder.EndPacket | src/aioquic/quic/packet_builder.py:260-366 | pads, patches the header, protects in place and records, or gives an empty packet up |
| Builders.PacketBuilder.SettlePadding | src/aioquic/quic/packet_builder.py:267-291 | padding for the header sample, and to the flight capacity inside a short-header packet of a datagram that needs it |
| Builders.PacketBuilder.WriteHeader | src/aioquic/quic/packet_builder.py:305-339 | the header is written into its reserved room and nothing else changes |
| Builders.PacketBuilder.SealInPlace | src/aioquic/quic/packet_builder.py:341-351 | the protected packet replaces the plain one where it stood |
| Builders.PacketBuilder.InitializeDatagram | src/aioquic/quic/packet_builder.py:207-221 | capacities of a new datagram from what is left of the budgets |
| Builders.PacketBuilder.FlushCurrentDatagram | src/aioquic/quic/packet_builder.py:368-384 | pads if needed, hands the datagram over and starts again at the front |
| Builders.PacketBuilder.FlushAll | src/aioquic/quic/packet_builder.py:143-155 | hands everything over and starts with empty lists |
| WireFormats.VarBytes | src/aioquic/_buffer.c:270-308 | every varint byte by byte, with its tag and size (section 16 of RFC 9000) |
| WireFormats.VarExamples | src/aioquic/_buffer.c:155-192 | the examples of appendix A.1 of RFC 9000 |
| WireFormats.AckExample | src/aioquic/quic/packet.py:625-640 | the bytes of an ACK frame |
| WireFormats.StreamExample | src/aioquic/quic/connection.py:3543-3559 | the bytes of STREAM frames with and without offset and FIN |
| WireFormats.FirstBytes | src/aioquic/quic/packet.py:270-285 | the first bytes of the long headers of both versions |
| WireFormats.HeaderExample | src/aioquic/quic/packet_builder.py:305-339 | the bytes of a long and of a short header |
| WireFormats.NumberExample | src/aioquic/quic/packet.py:118-132 | the example of appendix A.3 of RFC 9000 |
| WireFormats.GroupAndModeExtensions | src/aioquic/tls.py:679-700 | the bytes of the extensions for groups, PSK modes and early data (section 4.2 of RFC 8446) |
| WireFormats.AlgorithmAndVersionExtensions | src/aioquic/tls.py:679-700 | likewise for signature algorithms and versions |
| WireFormats.NameExtensions | src/aioquic/tls.py:679-700 | likewise for the server name and ALPN |
| WireFormats.KeyShareExtension | src/aioquic/tls.py:495-504 | likewise for key shares |
| WireFormats.TicketExtension | src/aioquic/tls.py:560-572 | likewise for a ticket with its age and binder |
| WireFormats.HelloStarts | src/aioquic/tls.py:667-678 | the bytes of a ClientHello around its extensions |

## Left out

- RESET_STREAM and STOP_SENDING, on streams and in the flow-control sums: `handle_reset` does not raise
  the highest offset (src/aioquic/quic/stream.py:115-127), so the used counter is only an upper bound there.
- Unidirectional streams in one object: a stream that cannot be read or written, and its initial state.
- MAX_STREAMS and STREAMS_BLOCKED frames, and the stream-count limits.
- The initial limits of a stream are the same on both sides, as honest transport parameters make them.
- Flow control is stated for one direction; the other is the same system with the endpoints exchanged.
- FlowEndpoints.FlowEndpoint.WriteConnectionLimit: the loop body for MAX_DATA only; whether its frame fits is
  a parameter, and its bytes are not written.
- FlowEndpoints.FlowEndpoint.WriteStreamLimit: likewise, whether the frame fits is a parameter.
- TransportRuns: one packet space and no credit; the limits are the subject of `FlowControl`.
- The pacer. Sends that find a small positive bucket floor it to zero (src/aioquic/quic/recovery.py:49-55).
- The loss-detection timer value and the probe timeout, which only read the state modelled here.
- Recovery.RenoController.OnRttMeasurement: what the round-trip monitor decides is a parameter.
- Recovery.PacketRecovery.RemoveAcked: sorted numbers are the insertion order, since numbers grow; all
  handlers of a packet are one log entry, and what the handlers do is modelled where they belong.
- Re-initialisation of the packet spaces on Retry and version negotiation, and 0-RTT parameter restore, which
  reset spaces, numbers or limits in the middle of a run.
- HeaderWriters.EncodeRetry: the AEAD that makes the integrity tag is a parameter.
- Cubic, Pulse and monitored Reno congestion control.
- Floating-point rounding in recovery: arithmetic is over real numbers.
- Builders.PacketBuilder.FlushCurrentDatagram: at the end of a 1-RTT packet the source flushes while the
  packet is still set; here it is cleared first. The order cannot be observed.
- HeaderReaders.SplitDatagram: the walk of `receive_datagram` without its drops for small INITIAL datagrams, unknown
  connection IDs and versions, and without decryption.
- PacketNumbers.EveryNumberRecovered: numbers that arrive within half a window of the next expected one;
  `RecoveredExactly` says what happens to any other.
- Malformed ACK ranges from a peer are read as the code reads them, but nothing further is stated of them.
- QPACK, its blocked streams and the validation of header fields.
- HTTP/3 control and unidirectional streams, and sending apart from `encode_frame`.
- H3.H3Stream.Receive: the end of a call with an exception is one failure value. The read error a short
  PUSH_PROMISE raises is that value too, although it is not a protocol error in the source.
- H3Chunks.FramesReadBack: frames other than WEBTRANSPORT_STREAM, which last to the end of the stream.
- TlsContexts.Context.HandleAsClient: an exception is a failed phase; most of what a handler changed before
  raising it is not modelled. Likewise for HandleAsServer.
- TlsContexts.Context.SelectSchedule: the proxy's key schedules are values; they are never shared.
- AEAD, HKDF, HMAC, key exchange and signatures, which are free symbols, and certificate chains, which
  are judged by a parameter.
- In the handshake: compression methods, protocol versions, random values, session ID, server name and
  unknown extensions, none of which enters a secret except through the transcript.
- TlsHello.HelloRoundTrip: the codecs of the other handshake messages, which are built from the same blocks.
- Reassembly of handshake messages from the receive buffer.
- Exceptions, which are None, a false flag or a failure value, as each module says.
- Logging, qlog, sockets, asyncio, clocks, and the measuring code around the library.
