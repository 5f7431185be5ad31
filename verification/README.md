# The connection engine of magicicada-protocol, in Dafny

A model of the client side of the storage protocol, from the bytes of the network up to finished
requests, and proofs of what it promises. `dafny verify dfyconfig.toml` checks all of it.

The parts, bottom up:

- `Options`, `ByteStrings`: the option type; byte strings, chunks, the search for CR LF.
- `FrameCodec`: length-prefixed frames. `FrameDecoder` is the re-entrant incremental decoder with its
  loop and its fields; the partner it is proved against is `DecodeStream`, which has the whole stream in
  front of it. `FrameSender` is the other end.
- `HelloLine`: the hello line in front of the frames (`StorageClient.dataReceived`).
- `Requests`: one request with its byte producers as a step system: start, resume, pause, stop, cancel,
  replies, scheduled `go` calls, loss of the connection. A pause may come from inside a write.
- `Uploads`, `UploadLimits`: what an upload sends, over every run, against the canonical upload of the file's
  suffix; and what a second BEGIN_CONTENT and a completion do to that.
- `Multiplexer`: the request handler over any number of requests: the registry in dictionary order, ids, the
  producer registration, the wire.
- `ConnectionRuns`, `FlowControl`, `Demux`, `Downloads`, `PeerView`: what whole runs of the connection mean for
  each request, for messages that belong to none, and for the other end of an upload.
- `Outcomes`, `Announcements`: how each kind of request ends and with what result, and what a request's start and
  its cancellation put on the wire, over every run.
- `Effects`, `RequestObjects`: the same as objects that update their fields in place and call each other
  (`RequestHandler`, `Request`, `BytesMessageProducer`, `File`), proved to make exactly the steps of
  `Multiplexer`. The transport and the write throttle may call back and pause the handler inside any write.
- `ProtoWire`, `QueryPacking`: varints and fields; the greedy split of a query over messages.
- `Throttle`, `ThrottleLaws`, `ThrottleRate`, `ThrottlingFactory`: the bandwidth throttle with an exact clock: its
  steps, when it pauses and lets go, the rate that follows, and the object.
- `Utf8`, `DirContent`: UTF-8 and directory content.
- `WireLayout`: headers, varints, characters, directory content and queries, byte by byte.
- `ProxyTunnel`: the line splitter in front of an HTTPS proxy.

The `hide` statements only keep definitions away from the solver where a proof does not need them.

## What the proofs show about the code

Some promises hold only under a condition, which is then stated and proved from both sides, with an input on the
failing side:

- The comment at `magicicadaprotocol/request.py:100-102` and `README.md:38-44` say that clients use even
  ids. The code (`magicicadaprotocol/client.py:55-56`) and `magicicadaprotocol/protocol.proto:533-534` say
  odd; the model follows the code.
- The hello line is searched for CR LF one chunk at a time, so all messages arrive exactly when no cut
  falls between its CR and LF (`HelloThenFrames`, `SplitHelloExample`).
- A trailing empty message is delivered only when the next byte arrives (`RoundTrip`).
- A pause from inside a write of `resumeProducing` leaves requests paused under a handler that believes it is
  producing, except when the first request's last EOF absorbs it (`ResumeAgreesIff`, `StalledExample`).
- When a further BEGIN_CONTENT comes for a running upload, EOF can be sent a second time exactly if an earlier
  producer is through or still pumping (`FurtherBeginIff`). With offset 0 the producers share the file's
  position and the file goes out once (`TwoBeginsTwoEofs`); with another offset each of them sends all of the
  suffix (`TwoBeginsTwoSuffixes`).
- A request that has completed sends nothing more exactly if none of its producers is pumping
  (`CompletedIsSilentIff`); a completed upload that is still pumping can go on up to its EOF
  (`CompletedExample`, `CompletedGoesOn`, `ReachesEof`).
- `MultiQuery` ends exactly when every item fits alone (`EndsIff`, `OversizedExample`); sizes are computed with
  id 0, so a query can be up to four bytes too long for the peer under its real id (`PeerAcceptsIff`,
  `FullQueryRefused`).
- A connection lost while its client is paused leaves that direction stuck, with the lost client paused, until
  throttling is disabled (`LostWhilePaused`, `DisableFrees`, `StuckExample`); `factory.client` is never set to
  another client (`magicicadaprotocol/client.py:1759-1767`), so the bytes of the next connection are not
  registered at all.
- A reset loop runs until throttling is disabled or the connection is lost (`LoopRunsOn`). Enabling starts it
  afterwards exactly if it had never been started before (`RestartsIff`), as in a factory built disabled; a loop
  that has been stopped stays stopped, and its counter never goes down again (`StoppedForGood`).
- The throttle lets at most three times the limit through per second (`RateBound`), and less than that if no bytes
  come at the very instant of a reset that is still to fire; the code does not order a reset before an
  unthrottling of the same instant, and then the bound can be reached (`TiedExample`). The bound is about bytes
  that come while the client is not paused: those that come in spite of a pause are only counted
  (`OverrunExample`).
- The proxy's answer counts as accepted when the status in its LAST non-empty line is 200, since every header
  line overwrites it (`ReplyOutcome`). The outcome does not depend on the chunks exactly if none of them ends
  between the CR and LF of a line of exactly `MAX_LINE_LEN` bytes (`CutsShowIff`); each that does costs one error.
- Directory content depends on the order of the input exactly when two different entries share a name
  (`CanonicalForm`, `OrderShows`).

## Model

| member | source | states |
|---|---|---|
| FrameCodec.FrameDecoder.BuildMessage | magicicadaprotocol/request.py:168-201 | The re-entrant loop ends on every input and delivers the messages, and leaves the buffer, phase and missing length, that the whole-stream reference decoder gives for the unread bytes followed by this chunk. |
| FrameCodec.FrameDecoder.LastPart | magicicadaprotocol/request.py:175-201 | The `else` branch: a part no longer than what is missing completes at most the current header or message, with the size check of a header. |
| FrameCodec.FrameDecoder.constructor | magicicadaprotocol/request.py:85-93 | A new connection waits for the four bytes of a header. |
| FrameCodec.ChunkingInvariance | magicicadaprotocol/request.py:168-201 | Any split of any stream into non-empty chunks, from any reachable state, delivers the same messages and leaves the same joined buffer, pending length and phase as the reference decoder on the whole stream. |
| FrameCodec.DecodeSplit | magicicadaprotocol/request.py:171-181 | Decoding a prefix and then the rest from the state left behind is decoding the whole; an oversized header makes the rest irrelevant. |
| FrameCodec.CompleteUnitFirst | magicicadaprotocol/request.py:171-175 | The recursive call of the loop on exactly the missing bytes is sound, also when no byte is missing because a zero-length message is pending. |
| FrameCodec.OversizedStops | magicicadaprotocol/request.py:186-192 | The first header above MAX_MESSAGE_SIZE stops delivery after exactly the frames before it, whatever follows. |
| FrameCodec.FrameSender.SendMessage | magicicadaprotocol/request.py:250-257 | Header and message go out in two writes, and the wire is the frames of everything sent so far, in order. |
| FrameCodec.RoundTrip | magicicadaprotocol/request.py:250-257 | Decoding the frames of any sendable list gives the list and the initial state; only a trailing empty message is still waiting for one more byte. |
| FrameCodec.Transmission | magicicadaprotocol/request.py:168-201 | For messages of 1 to MAX_MESSAGE_SIZE bytes, any non-empty chunks of the sender's bytes give the receiver exactly the messages. |
| FrameCodec.UnpackPack | magicicadaprotocol/request.py:256-256 | The 32-bit big-endian header gives its number back. |
| HelloLine.StorageClient.DataReceived | magicicadaprotocol/client.py:88-104 | One call looks for CR LF in this chunk only, drops everything up to it and hands the rest to the decoder. |
| HelloLine.DeliversAfterHello | magicicadaprotocol/client.py:88-104 | For every chunking, the messages delivered are the frames that follow the CR LF of the first chunk that holds one. |
| HelloLine.NeverLeavesLineMode | magicicadaprotocol/client.py:94-99 | Without a CR LF inside one chunk nothing is ever delivered. |
| HelloLine.HelloThenFrames | magicicadaprotocol/client.py:88-104 | After a hello line all messages are delivered, and the decoder is back in its initial state, if and only if the line's CR and LF lie in one chunk. |
| HelloLine.AfterHello | magicicadaprotocol/client.py:88-104 | With the CR LF of the hello line in one chunk, any list of messages of 1 to MAX_MESSAGE_SIZE bytes arrives, however the rest is cut. |
| HelloLine.SplitHelloExample | magicicadaprotocol/client.py:94-99 | A hello line cut between CR and LF, then one message: nothing arrives. |
| Requests.RunInv | magicicadaprotocol/request.py:358-392 | Over every run of one request: finished is the same as fired, at most once; at most one CANCEL_REQUEST and nothing after it; a producer that is producing, unfinished and uncancelled always has a `go` call pending. |
| Requests.StepInv | magicicadaprotocol/client.py:1269-1308 | Every single call keeps that invariant: start, resume, pause, reply, cancel, scheduled `go`, loss. |
| Requests.GoInv | magicicadaprotocol/client.py:1282-1308 | `go` keeps CANCEL_REQUEST last and no producer without its wakeup, even if the transport pauses the request inside the send. |
| Requests.GoShape | magicicadaprotocol/client.py:1293-1308 | After a working `go` its producer has a call pending or is finished, and the other producers are at most stopped. |
| Requests.GoWorks | magicicadaprotocol/client.py:1292-1308 | A pause inside the write of a working `go` comes to the same as a pause right after it. |
| Requests.CancelInv | magicicadaprotocol/client.py:1418-1424 | Cancelling keeps that invariant: CANCEL_REQUEST comes at most once and last, and whoever had a wakeup has one. That it comes is `Announcements.CancelAnnounces`. |
| Requests.ReceiveInv | magicicadaprotocol/client.py:1397-1416 | No reply of any kind completes a request twice or sends after a cancellation. |
| Requests.ApplyStatus | magicicadaprotocol/request.py:374-392 | Only a start gives a request its id; a request stops being started exactly by finishing, and stays finished. |
| Uploads.UploadSafety | magicicadaprotocol/client.py:1269-1308 | After one BEGIN_CONTENT, in every run of resumes, pauses, stops, cancels, other replies and any number of pending `go` calls, with pauses inside sends, the content sent is exactly the first n messages of the canonical upload of the requested suffix, n being the number of `go` runs that got to work. |
| Uploads.PrefixOfUpload | magicicadaprotocol/client.py:1292-1308 | The first n canonical messages carry a prefix of the suffix; an EOF is only the last message, after all of the bytes. |
| Uploads.CanonicalPayload | magicicadaprotocol/client.py:1292-1303 | The canonical upload carries exactly the bytes of the suffix. |
| Uploads.CanonicalShape | magicicadaprotocol/client.py:1293-1308 | The canonical upload is non-empty BYTES of at most a full payload, then one EOF. |
| Uploads.ReachesEof | magicicadaprotocol/client.py:1282-1308 | Progress: from every state the pump can be in while it is producing, also after a completion, running as many pending `go` calls as messages are left sends all of them up to EOF. |
| Uploads.CancelledSendsNothing | magicicadaprotocol/client.py:1289-1290 | After a cancellation no run of resumes, BEGIN_CONTENT or `go` calls sends anything again. |
| UploadLimits.EofsFromCreation | magicicadaprotocol/client.py:1304-1308 | In every run of a request from its creation, the EOFs sent are as many as the producers that have come to the end of the file. |
| UploadLimits.FurtherBeginIff | magicicadaprotocol/client.py:1406-1409 | When another BEGIN_CONTENT comes for a running upload, with any offset and any number of producers so far, no run without yet another one ever sends two EOFs if and only if every earlier producer stands still and is not through. |
| UploadLimits.TwoBeginsTwoEofs | magicicadaprotocol/client.py:1292-1297 | Two BEGIN_CONTENT with offset 0: the bytes go out once, EOF twice. |
| UploadLimits.TwoBeginsTwoSuffixes | magicicadaprotocol/client.py:1292-1297 | Two BEGIN_CONTENT with offset 1: the whole suffix goes out twice, and EOF twice. |
| UploadLimits.CompletedIsSilentIff | magicicadaprotocol/client.py:1282-1290 | A completed request sends nothing in any run if and only if none of its producers is pumping when it completes. |
| UploadLimits.CompletedGoesOn | magicicadaprotocol/client.py:1282-1308 | Some run of the pumping producer's own calls takes it all the way to one more EOF after the completion; `ReachesEof` says what it sends. |
| UploadLimits.CompletedExample | magicicadaprotocol/client.py:1282-1303 | An upload answered OK after its first byte of two: it is completed, and its pending call sends the second byte. |
| Multiplexer.RunKeepsInv | magicicadaprotocol/request.py:95-131 | Over all runs with any number of requests: the registry holds exactly the started, unfinished requests under their own ids, ids are odd, distinct and below the counter, the handler is the transport's producer exactly when the registry is not empty, no deferred fires twice, and the wire carries under each id what that request sent. |
| Multiplexer.StepKeepsInv | magicicadaprotocol/request.py:106-149 | Every entry point keeps that invariant, with pauses from inside any write, those of a lost connection included. |
| Multiplexer.StartAllotsNewId | magicicadaprotocol/request.py:95-104 | A started request gets the odd counter value, above every id given out before, and the counter moves on by two. |
| Multiplexer.DispatchInv | magicicadaprotocol/request.py:203-248 | A message for a registered request, a PING, a handled and an unhandled one all keep the invariant. |
| ConnectionRuns.RunReaches | magicicadaprotocol/request.py:225-248 | On every run of the connection each request goes through a run of its own, so no other request can disturb it. |
| ConnectionRuns.DeliverToOwner | magicicadaprotocol/request.py:225-228 | A message under a live request's id is processed by that request. |
| ConnectionRuns.UploadOnTheWire | magicicadaprotocol/client.py:1269-1308 | In every run of the whole connection the wire carries under an upload's id a prefix of its canonical upload, and a CANCEL_REQUEST at most as its last message. |
| ConnectionRuns.UploadReachesEof | magicicadaprotocol/client.py:1282-1308 | Progress on the connection: from any state in which an upload is producing, as many of its own pending calls as it has messages left put the whole canonical upload on the wire under its id. |
| ConnectionRuns.LostDrains | magicicadaprotocol/request.py:106-119 | Losing the connection, with the handler paused inside any of the CANCEL_REQUEST writes of the loop, empties the registry, unregisters the producer, and cancels and fails every outstanding request exactly once with the reason, leaving all others untouched. |
| ConnectionRuns.NothingSentAfterLoss | magicicadaprotocol/client.py:1289-1290 | After any such loss no pending `go` call of an outstanding request sends anything, whatever follows. |
| Announcements.CancelAnnounces | magicicadaprotocol/request.py:437-449 | Cancelling a started, uncancelled upload or download appends exactly CANCEL_REQUEST to what it has sent, and an upload's current producer is off; any other cancellation sends nothing and stops nobody. An unfinished request is cancelled from then on. |
| Announcements.LossAnnounces | magicicadaprotocol/request.py:106-119 | A transfer lost with the connection is told off in the same way, unless it had been cancelled. |
| Announcements.AnnouncedOnce | magicicadaprotocol/request.py:437-449 | In every run of a transfer from its start on, it has sent exactly one CANCEL_REQUEST if it has been cancelled, by user code or by the loss, and none if not. |
| Announcements.CancelOnTheWire | magicicadaprotocol/client.py:726-730 | On the connection: cancelling a running transfer puts one CANCEL_REQUEST under its id on the wire, and nothing else under that id in any run that follows; cancelling any other running request puts nothing. |
| Announcements.AnnouncedOnTheWire | magicicadaprotocol/client.py:1418-1424 | In every run of the connection the wire carries exactly one CANCEL_REQUEST under the id of a transfer that has been cancelled since, and none under that of another. |
| Announcements.CreatedIsBlank | magicicadaprotocol/request.py:311-325 | A new request has what it was created with, nothing has happened to it, and nothing else changes. |
| Announcements.StartAsks | magicicadaprotocol/request.py:358-372 | Starting sends exactly the message the kind asks with, and completes only a one-way request. |
| Announcements.AsksFirst | magicicadaprotocol/client.py:682-690 | In every run after a start, the first message on the wire under the request's id is PUT_CONTENT for an upload, GET_CONTENT for a download, QUERY for a query, and its own message for any other. |
| Outcomes.OutcomeOfRun | magicicadaprotocol/request.py:374-392 | In every run of the connection, with losses, cancellations and unhandled messages in it: a running request finishes exactly if a reply under its id that ends its kind, or the loss of the connection, comes, and its deferred fires with the verdict on the first of these and nothing else. |
| Outcomes.UploadOutcome | magicicadaprotocol/client.py:1397-1416 | The first reply to an upload other than BEGIN_CONTENT decides: success if and only if it is OK, cancelled by the peer if and only if CANCELLED, the peer's error if and only if ERROR, otherwise an unexpected reply; without one nothing fires. |
| Outcomes.DownloadOutcome | magicicadaprotocol/client.py:692-724 | The same for downloads: the first reply other than NODE_ATTR and BYTES decides, and EOF and OK are the successes. |
| Outcomes.ExchangeOutcome | magicicadaprotocol/request.py:422-428 | The very first reply decides a one-message request, and it succeeds if and only if that is the answer it waits for. |
| Outcomes.ReplyDecides | magicicadaprotocol/request.py:430-435 | One reply of any kind: the table of endings and verdicts, what a query and a download collect, and the data an EOF completes. |
| Outcomes.FateOfReplies | magicicadaprotocol/request.py:225-248 | Without a loss, the outcome is the verdict on the first ending one among the replies that are processed under the id. |
| Outcomes.LookupCollects | magicicadaprotocol/client.py:1246-1248 | In every run without a loss a query has collected what it had and its own node states before its ending reply, in order. |
| Outcomes.QueryGetsItsStates | magicicadaprotocol/client.py:1244-1252 | In every run in which the messages under a running query's id are NODE_STATEs and then QUERY_END, among anything else and with anything after, it succeeds exactly once with its own node states in order. |
| Demux.UnownedMessage | magicicadaprotocol/request.py:229-248 | A message under no request's id: by the number of its type it raises if and only if there is no `handle_` method for it (`magicicadaprotocol/client.py:127-210`, `magicicadaprotocol/request.py:259-267`), a PING writes one PONG under its own id, and nothing else changes. |
| Demux.RaisedIsDeaf | magicicadaprotocol/request.py:243-247 | After a message has raised, none changes anything. |
| Demux.PongsAnswerPings | magicicadaprotocol/request.py:259-264 | In every run the PONGs on the wire are, in order and under the same ids, one for each PING that is no request's reply. |
| FlowControl.PausedStops | magicicadaprotocol/request.py:139-149 | The transport's pause stops every started request and its current producer, and nobody else. |
| FlowControl.ResumedStarts | magicicadaprotocol/request.py:133-137 | The transport's resume, without a pause inside a write, sets every started request going, its current producer with it. |
| FlowControl.StepAgrees | magicicadaprotocol/request.py:121-149 | Every call but a resume keeps requests, byte producers and handler in agreement, even with pauses inside writes. |
| FlowControl.ResumeAgreesIff | magicicadaprotocol/request.py:133-137 | After a resume they agree if and only if no pause hits inside a resumed request's write, except one absorbed by the first request's EOF. |
| FlowControl.RunAgrees | magicicadaprotocol/request.py:327-352 | Agreement over all runs whose resumes meet that condition, through start, BEGIN_CONTENT, pause, stop and resume. |
| FlowControl.ResumeInterrupted | magicicadaprotocol/request.py:327-331 | A pause inside the write of a resume leaves the request claiming to produce with its producer stopped, unless it just finished. |
| FlowControl.StalledExample | magicicadaprotocol/request.py:133-137 | A new connection, an upload started, begun and paused, then a resume with a pause inside its write: the agreement is lost. |
| Downloads.DownloadGetsItsBytes | magicicadaprotocol/client.py:692-724 | In every run in which a download's own replies are BYTES (and NODE_ATTR) and an EOF, among anything else, it succeeds exactly once with the in-order concatenation of its own payloads. |
| Downloads.EndToEnd | magicicadaprotocol/client.py:88-104 | The same from the network's chunks, starting anywhere on a connection, before the hello line or in the middle of a frame: what the decoder makes of the chunks is any interleaving of the replies of any number of downloads, with other messages and events in between and pauses inside any write, none of which raises. |
| Downloads.WrittenCarries | magicicadaprotocol/request.py:168-201 | What the decoder makes of any non-empty chunks of the frames is the messages written, past the hello line also when the first frame has been begun already, and on a new connection when one chunk holds the CR LF of the hello line. |
| Downloads.WireToDownloads | magicicadaprotocol/client.py:692-724 | So from the bytes the peer writes, at any time of a connection, every running download gets exactly the bytes sent under its own id. |
| Downloads.DownloadsComplete | magicicadaprotocol/client.py:702-718 | If the replies of the running downloads are all that the decoder makes of the chunks, nothing raises and every one of them is complete with its own bytes. |
| Downloads.CancelledCollectsNothing | magicicadaprotocol/client.py:702-716 | In every run after its cancellation a download collects no more bytes and never gets its data. |
| Downloads.ArrivalsOfEvents | magicicadaprotocol/request.py:151-158 | The messages processed are those the decoder delivers, in order, whatever happens between the chunks. |
| PeerView.UploadAtPeer | magicicadaprotocol/request.py:168-201 | At any moment of any run, from any non-empty chunks of the beginning of the frames of the wire, the peer's decoder has under the upload's id a prefix of the canonical upload: its payload is a prefix of the suffix, all of it once EOF is there, and nothing follows a CANCEL_REQUEST. |
| PeerView.UploadArrives | magicicadaprotocol/client.py:1282-1308 | Once a producing upload has made its remaining calls and the bytes of the wire have come through, the peer has the whole canonical upload, that is, the whole suffix. |
| PeerView.GotIsPrefix | magicicadaprotocol/request.py:250-257 | Any non-empty chunks of the beginning of the frames of the wire give the peer the first of its messages, and all of them when they are complete. |
| Effects.WriteIsMoved | magicicadaprotocol/request.py:394-400 | A change of a request, its write with a pause of the whole handler inside, and a second change are together one move of the connection. |
| Effects.GoIsMoved | magicicadaprotocol/client.py:1292-1308 | The steps of a working `go`, from its read over the write with the pause inside to its last assignment, are one `Go` move. |
| Effects.MovedFinished | magicicadaprotocol/request.py:387-392 | A completion after a write of the same call, with a pause inside the write, makes one move with it. |
| RequestObjects.RequestHandler.constructor | magicicadaprotocol/request.py:85-93 | A new handler is the initial state of the step system. |
| RequestObjects.Request.constructor | magicicadaprotocol/request.py:311-325 | A new request is inert and shares no state with any other. |
| RequestObjects.Request.Start | magicicadaprotocol/request.py:358-372 | `start`, with `addProducer`, the new id, the registry and the first message, is one `Started` step of the connection, also if the transport pauses the handler inside the write. |
| RequestObjects.Request.StartExchange | magicicadaprotocol/client.py:1380-1395 | `_start`: the first message goes out under the request's id, with a pause inside the write, and a one-way request completes at once. |
| RequestObjects.Request.Done | magicicadaprotocol/request.py:374-377 | The request finishes and fires once, and leaves the registry. |
| RequestObjects.Request.Error | magicicadaprotocol/request.py:379-385 | The same for a failure, with its reason. |
| RequestObjects.Request.Cleanup | magicicadaprotocol/request.py:387-392 | Exactly the request's own entry is deleted; with the last one the producer is unregistered. |
| RequestObjects.Request.DefaultProcessMessage | magicicadaprotocol/request.py:422-428 | An unexpected message fails the request, an ERROR with the peer's reason. |
| RequestObjects.Request.ProcessMessage | magicicadaprotocol/request.py:430-435 | A reply moves the request as `Receive` says, writes only under its id, touches the registry only by completing it, and the other requests only by a pause inside its write. |
| RequestObjects.Request.ProcessDownloadReply | magicicadaprotocol/client.py:692-724 | The replies of a download: parts collected unless cancelled, completion by EOF, OK, CANCELLED or an error. |
| RequestObjects.Request.ProcessUploadReply | magicicadaprotocol/client.py:1397-1416 | The code of an upload's replies is the reply function of the steps, with a pause inside the write of a new producer; which reply ends it and how is `Outcomes.UploadOutcome`. |
| RequestObjects.Request.ProcessQueryReply | magicicadaprotocol/client.py:1244-1252 | The code of a query's replies is the reply function of the steps; what it collects and how it ends is `Outcomes.LookupCollects` and `Outcomes.QueryGetsItsStates`. |
| RequestObjects.Request.RegisterProducer | magicicadaprotocol/request.py:345-352 | The new producer replaces the old one and is resumed if the request is producing. |
| RequestObjects.Request.ResumeProducing | magicicadaprotocol/request.py:327-331 | The current producer runs `go`, and the flag is set. |
| RequestObjects.Request.StopProducing | magicicadaprotocol/request.py:333-343 | The current producer and the request stop; nothing is sent. |
| RequestObjects.Request.Cancel | magicicadaprotocol/request.py:437-449 | The code of `cancel` is the cancelling of the steps, with a pause inside the write; that CANCEL_REQUEST goes out, and exactly once, is `Announcements.CancelAnnounces` and `Announcements.CancelOnTheWire`. |
| RequestObjects.Request.Abort | magicicadaprotocol/request.py:110-116 | The body of the loop of `connectionLost`: stop, cancel, with a pause inside the write of CANCEL_REQUEST or without, then fail with the reason, in that order. |
| RequestObjects.Request.CancelTransfer | magicicadaprotocol/client.py:1418-1424 | An upload stops its producer before it sends CANCEL_REQUEST. |
| RequestObjects.Request.SendMessage | magicicadaprotocol/request.py:394-400 | The message goes to the wire under the request's id, and the pause inside the write reaches every registered request. |
| RequestObjects.BytesMessageProducer.Go | magicicadaprotocol/client.py:1282-1308 | `go` on the objects (file position, offset, flags, scheduled calls, wire) is `Go` on the values, with a pause of the whole handler inside its write or without. |
| RequestObjects.BytesMessageProducer.ResumeProducing | magicicadaprotocol/client.py:1269-1272 | Switches the producer on and runs `go`. |
| RequestObjects.RequestHandler.RunScheduled | magicicadaprotocol/client.py:1303-1303 | A call scheduled with `callLater(0, self.go)`, whenever the reactor makes it, is one `GoDue` step. |
| RequestObjects.RequestHandler.UserCancel | magicicadaprotocol/request.py:437-449 | A cancellation by user code is one `UserCancelled` step. |
| RequestObjects.RequestHandler.ProcessMessage | magicicadaprotocol/request.py:203-248 | Routing by id, handlers and the exception for an unknown type are one `Arrived` step. |
| RequestObjects.RequestHandler.SendMessage | magicicadaprotocol/request.py:250-257 | The message is the last on the wire; if the transport pauses the handler inside the write, every registered request is paused. |
| RequestObjects.RequestHandler.AddProducer | magicicadaprotocol/request.py:121-126 | The first request registers the handler with the transport; a producing handler resumes the newcomer. |
| RequestObjects.RequestHandler.RemoveProducer | magicicadaprotocol/request.py:128-131 | An empty registry unregisters the handler. |
| RequestObjects.RequestHandler.GetNewRequestId | magicicadaprotocol/request.py:95-104 | The old counter is the id; the counter moves on by two. |
| RequestObjects.RequestHandler.ResumeProducing | magicicadaprotocol/request.py:133-137 | The loop over the registry is one `Resumed` step, for any set of requests inside whose writes the transport pauses the handler. |
| RequestObjects.RequestHandler.PauseProducing | magicicadaprotocol/request.py:139-149 | The loop over the registry is one `Paused` step: all registered requests at once. |
| RequestObjects.RequestHandler.ConnectionLost | magicicadaprotocol/request.py:106-119 | The loop over a copy of the shrinking registry is one `Lost` step, for any set of requests inside whose CANCEL_REQUEST the handler is paused. |
| RequestObjects.PauseEachIsAll | magicicadaprotocol/request.py:145-149 | Pausing the registered requests one after the other pauses exactly them. |
| RequestObjects.DeletedEntries | magicicadaprotocol/request.py:391-391 | Deleting by key removes exactly the entry of the one request with that id. |
| ProtoWire.VarintRoundTrip | magicicadaprotocol/protocol.proto:38-38 | A Base 128 varint gives its number back and ends where it should. |
| ProtoWire.ReadBytesField | magicicadaprotocol/protocol.proto:120-120 | Reading undoes the writing of a length-delimited field, whatever follows it; its bytes are laid down by `WireLayout.AnyFields`. |
| ProtoWire.VarintOfInt32 | magicicadaprotocol/protocol.proto:38-38 | A non-negative int32 takes one to five bytes. |
| QueryPacking.Query.Fill | magicicadaprotocol/client.py:1229-1238 | The loop keeps the longest prefix of the items that fits with id 0; the next item, if any, is the overflow and the rest stays in the iterator. |
| QueryPacking.MultiQuery | magicicadaprotocol/client.py:1165-1185 | The loop with the overflow chained in front ends and gives the greedy split. |
| QueryPacking.GreedyIsPartition | magicicadaprotocol/client.py:1172-1183 | The queries' items are the input in order without loss or duplication, and each query fits with id 0. |
| QueryPacking.GreedyIsTight | magicicadaprotocol/client.py:1229-1234 | Every query but the last would overflow with the next item added. |
| QueryPacking.GreedyIsOptimal | magicicadaprotocol/client.py:1172-1183 | No split of the items into consecutive groups that fit has fewer groups. |
| QueryPacking.EndsIff | magicicadaprotocol/client.py:1176-1183 | The loop ends if and only if every item fits alone. |
| QueryPacking.OversizedExample | magicicadaprotocol/client.py:1176-1183 | An item one byte too big: the loop never ends. |
| QueryPacking.SentSize | magicicadaprotocol/client.py:1240-1242 | Under its real id a query is at most four bytes over the limit. |
| QueryPacking.PeerAcceptsIff | magicicadaprotocol/request.py:186-192 | The peer takes a query if and only if the bytes of its real id still fit. |
| QueryPacking.FullQueryRefused | magicicadaprotocol/client.py:1231-1231 | A full query is refused under every id from 128 on. |
| Throttle.RunPaired | magicicadaprotocol/client.py:1900-1983 | From any state paired in both directions, over all runs of the client's arrival, registrations by it, limit changes, timers, enable, disable and registrations inside an unthrottling: throttled exactly when an active unthrottle timer is set, and pause and unpause alternate. |
| Throttle.PairedFromStart | magicicadaprotocol/client.py:1818-1839 | The same from the constructor on, enabled or not. |
| Throttle.LostWhilePaused | magicicadaprotocol/client.py:1992-2009 | Losing the connection, for one direction whatever the other is like: if it was throttled it is stuck and told nothing in every run without a disable; if not it stays paired in every run up to a further loss. |
| Throttle.DisableFrees | magicicadaprotocol/client.py:2024-2037 | A disable ends that: the stuck direction is told to go on and is paired again. |
| Throttle.StuckExample | magicicadaprotocol/client.py:1992-2009 | A factory built enabled, a client that reads above the limit and loses its connection: stuck, and told to pause. |
| Throttle.RestartsIff | magicicadaprotocol/client.py:2011-2022 | Enabling after a disable or a lost connection gets the reset loop running if and only if it had not been started before that. |
| Throttle.LoopRunsOn | magicicadaprotocol/client.py:1944-1956 | A running reset loop runs on in every run without a disable or a lost connection. |
| Throttle.StoppedForGood | magicicadaprotocol/client.py:2024-2037 | A reset loop stopped by a disable or a lost connection never runs again in any run, and the counter never goes down. |
| Throttle.RestartExample | magicicadaprotocol/client.py:1836-1839 | Built enabled, disabled and enabled: no loop; built disabled and enabled: a loop. |
| ThrottleLaws.CounterTallies | magicicadaprotocol/client.py:1944-1956 | In every run the byte counter holds the bytes registered while enabled since the last reset, those reported inside an unthrottling included. |
| ThrottleLaws.PausesIff | magicicadaprotocol/client.py:1900-1920 | A registration pauses the client if and only if throttling is enabled, no pause is running and the bytes of this second reach the limit; the pause is then due to end when those bytes at the limit take up the time since a second ago. The counter grows by the bytes and nothing else changes. |
| ThrottleLaws.PausesInRun | magicicadaprotocol/client.py:1922-1942 | The same after any run, with the bytes counted over the run. |
| ThrottleLaws.LeftAlone | magicicadaprotocol/client.py:1900-1908 | In a run in which no registration reaches the limit, whatever else happens, a client that is not paused is never told anything. |
| ThrottleLaws.PauseEnds | magicicadaprotocol/client.py:1965-1983 | The client is told to go on if and only if its timer is running and its time has come. |
| ThrottleLaws.ResetsIff | magicicadaprotocol/client.py:1944-1956 | The counter goes back to nothing if and only if the reset timer is running and due, and the next reset is one second later. |
| ThrottleLaws.DisableStops | magicicadaprotocol/client.py:2024-2037 | Disabling tells a paused client to go on and leaves no timer running. |
| ThrottleLaws.EnableStarts | magicicadaprotocol/client.py:2011-2022 | Enabling resets the counter and sets the reset timer if there has never been one, and tells nobody anything. |
| ThrottleLaws.LimitReplaces | magicicadaprotocol/client.py:1845-1861 | A limit replaces the old one exactly if it is positive or none. |
| ThrottleLaws.NewLimitGoverns | magicicadaprotocol/client.py:1845-1864 | So it governs the very next registration. |
| ThrottleRate.WindowBound | magicicadaprotocol/client.py:1896-1920 | However late the timers fire and whatever comes while the client is paused, the bytes that one active window lets through are paid for by the time until the next, but for one second's worth. |
| ThrottleRate.SpacedWindows | magicicadaprotocol/client.py:1944-1956 | On a clock that never runs past a due reset, of two consecutive active windows i and j the first let at most limit * (j - i + 2) bytes through, and fewer in a run without bytes at the instant of a reset still to fire. |
| ThrottleRate.TotalBound | magicicadaprotocol/client.py:1944-1956 | Windows spaced like that let in all at most three times the limit through for each second since the first, and fewer if each stays strictly below. |
| ThrottleRate.RateBound | magicicadaprotocol/client.py:1890-1920 | From the moment the throttle is enabled, for every run with a constant limit on such a clock: what all windows before the last active one let through is at most three times the limit per second, and less in a run without bytes at the instant of a reset still to fire. |
| ThrottleRate.RateBoundFromStart | magicicadaprotocol/client.py:1836-1839 | The same bounds from the constructor of an enabled factory, before its client connects. |
| ThrottleRate.TiedExample | magicicadaprotocol/client.py:1978-1983 | An unthrottling that fires before the reset of the same instant, and a byte written then: three times the limit is reached. |
| ThrottleRate.OverrunExample | magicicadaprotocol/client.py:1922-1935 | Bytes that come in spite of a pause are counted, however many, and not held back. |
| ThrottleRate.UnthrottleThenRegister | magicicadaprotocol/client.py:1965-1970 | Bytes registered inside an unthrottling count like registrations right after it. |
| ThrottlingFactory.NewFactory | magicicadaprotocol/client.py:1818-1839 | A factory comes into being exactly if both limits are valid, otherwise `ValueError`; it starts its reset loops exactly if it is enabled. |
| ThrottlingFactory.Factory.ConnectionMade | magicicadaprotocol/client.py:1759-1763 | Only the first client is ever taken: one `Connected` step. |
| ThrottlingFactory.Factory.RegisterRead | magicicadaprotocol/client.py:1890-1894 | Counting the bytes and checking the limit is one `Registered` step. |
| ThrottlingFactory.Factory.RegisterWritten | magicicadaprotocol/client.py:1884-1888 | The same for writes. |
| ThrottlingFactory.Factory.CheckReadBandwidth | magicicadaprotocol/client.py:1900-1920 | The code is the check of the steps; when it pauses and until when is `ThrottleLaws.PausesIff`. |
| ThrottlingFactory.Factory.CheckWriteBandwidth | magicicadaprotocol/client.py:1922-1942 | The same for writes. |
| ThrottlingFactory.Factory.UnthrottleReads | magicicadaprotocol/client.py:1965-1970 | Clears the timer, unpauses the client, and counts what it reports meanwhile. |
| ThrottlingFactory.Factory.UnthrottleWrites | magicicadaprotocol/client.py:1978-1983 | The same for writes. |
| ThrottlingFactory.Factory.SetReadLimit | magicicadaprotocol/client.py:1854-1861 | A limit that is not positive is refused and changes nothing. |
| ThrottlingFactory.Factory.SetWriteLimit | magicicadaprotocol/client.py:1845-1852 | The same for writes. |
| ThrottlingFactory.Factory.EnableThrottling | magicicadaprotocol/client.py:2011-2022 | Starts the reset loops that have never run: one `Enabled` step. |
| ThrottlingFactory.Factory.DisableThrottling | magicicadaprotocol/client.py:2024-2037 | Cancels all timers and unpauses what is paused: one `Disabled` step. |
| ThrottlingFactory.Factory.UnregisterProtocol | magicicadaprotocol/client.py:1992-2009 | Cancels all timers and nothing else: one `Unregistered` step. |
| Utf8.RoundTrip | magicicadaprotocol/dircontent.py:142-154 | Decoding the UTF-8 encoding of any name gives the name. |
| Utf8.OrderPreserved | magicicadaprotocol/dircontent.py:95-95 | The order of UTF-8 byte strings is the code point order of the names (section 1 of RFC 3629). |
| DirContent.SortedIsStable | magicicadaprotocol/dircontent.py:95-95 | The sort is ordered by key and keeps the order of equal keys. |
| DirContent.StableSortUnique | magicicadaprotocol/dircontent.py:95-95 | Two ordered lists that agree on every key are the same list, so the sort is the only one. |
| DirContent.SortedByName | magicicadaprotocol/dircontent.py:87-97 | The entries come out in code point order of their names. |
| DirContent.YieldPresorted | magicicadaprotocol/dircontent.py:100-119 | With one reused entry object, the chunks concatenate to the serialization of all entries. |
| DirContent.WriteDirContent | magicicadaprotocol/dircontent.py:87-97 | The stream gets the serialization of the sorted entries appended, whose bytes `WireLayout.ContentLayout` lays down. |
| DirContent.EntryRoundTrip | magicicadaprotocol/dircontent.proto:44-48 | Parsing a serialized entry gives its name, node and type. |
| DirContent.DirectoryRoundTrip | magicicadaprotocol/dircontent.py:69-97 | Parsing what was written gives the stably sorted entries. |
| DirContent.CanonicalForm | magicicadaprotocol/dircontent.py:87-97 | If names tell the entries apart, the bytes do not depend on the input order. |
| DirContent.OrderShows | magicicadaprotocol/dircontent.py:87-97 | Two different entries of one name make the bytes depend on the input order. |
| WireLayout.HeaderPlaces | magicicadaprotocol/request.py:256-256 | The header has its most significant byte first, in both directions. |
| WireLayout.VarintLayout | magicicadaprotocol/protocol.proto:38-38 | A varint is seven bits a byte, least significant first, with the top bit on all bytes but the last and no byte too many. |
| WireLayout.CharLayout | magicicadaprotocol/dircontent.py:142-154 | The bytes of a character follow the table of section 3 of RFC 3629. |
| WireLayout.EntryLayout | magicicadaprotocol/dircontent.py:100-119 | An entry is written as byte 0A with its length, then 0A, length and name, 12, length and node, 18 and the type. |
| WireLayout.ContentLayout | magicicadaprotocol/dircontent.py:87-97 | And a directory as its entries, one after the other. |
| WireLayout.SmallEntry | magicicadaprotocol/dircontent.proto:44-52 | For an entry of fewer than 128 bytes all lengths are single bytes, and the whole is written out. |
| WireLayout.EntryExample | magicicadaprotocol/dircontent.proto:44-52 | The ten bytes of the file "a" with the node "u". |
| WireLayout.AnyFields | magicicadaprotocol/dircontent.proto:44-48 | Any bytes of such fields, in any order and any number, are parsed: the last of each counts, and what is absent is empty, or a directory. |
| WireLayout.ParsesContents | magicicadaprotocol/dircontent.py:69-84 | And a directory of such entries is parsed to them, in order. |
| WireLayout.QueryLayout | magicicadaprotocol/client.py:1221-1242 | A QUERY is 08 and its id, 10 0F, and for each item 3A with its length, then 0A, 12 and 1A with share, node and hash. |
| ProxyTunnel.ProxyTunnelClient.DataReceived | magicicadaprotocol/proxy_tunnel.py:102-121 | The loop over the buffer is the draining function, with its error and its exception. |
| ProxyTunnel.ProxyTunnelClient.LineReceived | magicicadaprotocol/proxy_tunnel.py:123-142 | Splitting at two spaces, the empty line, and the exception of a line without a space. |
| ProxyTunnel.ChunksAreLines | magicicadaprotocol/proxy_tunnel.py:102-121 | Every chunking of a reply, even between CR and LF, passes exactly its lines to `lineReceived`, in order, and adds the errors of the cuts. |
| ProxyTunnel.ReplyOutcome | magicicadaprotocol/proxy_tunnel.py:102-142 | The outcome of a reply of lines of up to MAX_LINE_LEN bytes for every chunking: lines, status and message of the last non-empty line, negotiation done if and only if that status is 200, and one error more for each chunk that ends between the CR and LF of a line of exactly MAX_LINE_LEN bytes. |
| ProxyTunnel.CutsShowIff | magicicadaprotocol/proxy_tunnel.py:111-120 | A chunking has the outcome of the unchunked reply, and its number of errors, if and only if no chunk ends between the CR and LF of a line of exactly MAX_LINE_LEN bytes. |
| ProxyTunnel.LongestLineDependsOnChunks | magicicadaprotocol/proxy_tunnel.py:111-120 | One line of exactly MAX_LINE_LEN bytes: no error in one chunk, one error when it is cut between CR and LF, and the line is passed on in both. |
| ProxyTunnel.PartsOfLine | magicicadaprotocol/proxy_tunnel.py:126-133 | Version, status and message joined by spaces are the line again, and neither version nor status holds a space. |
| ProxyTunnel.StatusExamples | magicicadaprotocol/proxy_tunnel.py:126-133 | The status and the message of two first lines. |
| ProxyTunnel.LongLineRefused | magicicadaprotocol/proxy_tunnel.py:111-120 | A line of more than 16384 bytes is an error even in one piece, and nobody is called with it. |
| ProxyTunnel.TunnelForwards | magicicadaprotocol/proxy_tunnel.py:102-106 | Once the negotiation is done, all bytes are passed on and nothing else happens. |

## Left out

- Twisted: transports, TLS, `Deferred` chains and the reactor; a deferred is the list of its firings, the
  reactor is the freedom to run any pending call at any time.
- User callbacks (`callback`, `node_attr_callback`, `upload_id_cb`, node-state notifications) and deferred
  callbacks that start or complete other requests from inside a completion.
- ThrottlingFactory.Factory.ConnectionMade: a second connection of one factory, whose bytes are not registered.
- RequestObjects.RequestHandler.ProcessMessage: messages that arrive after an exception has left `dataReceived`
  are not processed; the transport drops such a connection.
- RequestObjects.Request.Start: a request is started once; a second completion fails on the missing key before
  it reaches the deferred.
- The file of an upload has no other user; the model proves each call for a file that no other request holds.
- Message validation: all messages are taken to be valid (`validators.py`).
- The one-message request classes (`MakeFile`, `Move`, `Unlink`, `Authenticate`, `Ping` and similar): one kind
  of request, `Exchange`, that sends a message and waits for one type of answer, stands for all of them.
- `RequestResponse`, which only a server would start.
- Protocol buffers beyond the fields of QUERY and directory content; messages are otherwise an abstract
  payload with a parser that undoes the serializer (`Downloads.WireForm`).
- ProtoWire.VarintRoundTrip: the ten-byte limit of varints and the truncation of numbers above 64 bits when
  reading are not modelled; the numbers written here stay below it.
- Names with lone surrogates, which cannot be encoded; node types outside the three of `dircontent.proto`.
- File name validation (`validate_filename`, `normalize_filename`): a table and a regular expression.
- Bytes after an oversized header or a raised exception, proxy data after the empty line in the same chunk, and
  the text of error messages.
- ThrottleRate.RateBound: rates for runs in which throttling stays enabled and the limit is constant. The bytes that
  come in spite of a pause are not among those bounded. Rounding of floating point, since time and limits are
  real numbers here.
- `buildProtocol` of the factory, beyond the enabling it does. The client between throttle and handler
  (`magicicadaprotocol/client.py:1771-1799`): the handler may be paused inside any write and resumed at any time,
  not only when the throttle says so.
- Content hashing, certificates, volumes, shares, deltas, public files and the command-line samples.
