# Locho: a verified model of the tunnel's hard parts

Locho carries TCP and HTTP services over one peer connection. This project models
the parts of it that are hard to get right and proves what they promise, in Dafny:

- the **peer session**: a supervising driver that publishes generation-numbered
  connections into a watch slot, leases of other tasks that may clear that slot,
  close callers and status observers, interleaved step by step
  (`Session.dfy`, `SessionSafety.dfy`, `SessionProgress.dfy`);
- the **bounded HTTP/1.1 codec**: heads, framing and an incremental body decoder
  over a buffered reader that may split the stream anywhere, in buffered and
  streaming mode, and the request printer
  (`HttpText.dfy`, `HttpBody.dfy`, `HttpGrammar.dfy`, `HttpFaults.dfy`, `HttpHead.dfy`,
  `HttpHeadShape.dfy`, `HttpRequest.dfy`, `HttpAcceptance.dfy`);
- **tunnel framing** and its two ends: uploads, responses, the handshake, the host's
  one response head, and the lazily re-armed idle timer
  (`Frames.dfy`, `Upload.dfy`, `Response.dfy`, `Handshake.dfy`, `HandshakeCodec.dfy`,
  `HostStream.dfy`, `IdleRelay.dfy`);
- **ownership**: the native client's registry and attachments, the browser's
  pull-based body owner, the JavaScript stream's handles, connection admission and
  accept retries (`Registry.dfy`, `RegistrySafety.dfy`, `RegistryHistory.dfy`,
  `StreamOwner.dfy`, `JsStream.dfy`, `Admission.dfy`, `AcceptRetry.dfy`).

`dafny verify dfyconfig.toml` checks the whole project.

## How it is modelled

Code that loops over buffers or changes an object's fields is a method or a class
here, proved against a function of its input: a reference decoder that sees the
whole stream at once, the bytes a perfect transport would see, and so on. What
several tasks do to shared state is a state machine: `Can` and `Next` give its
steps, each of them what runs between two awaits or under one lock, `Runs` the
sequences of steps that are possible, and `After` the state they lead to. The
theorems quantify over every such sequence: what holds at every point, what the
next steps can only be, and what the state says of the steps so far. Where the
source keeps the same state in an object, a class holds those fields and its methods
are proved to make the machine's steps.

A watch channel is a value and a version, with a seen version for each receiver; a
cancellation token is a flag that is never cleared; a semaphore is a count. Clocks,
timeouts, transports and other peers are choices of the step sequence, or
parameters. Integers are unbounded; the machine word's limit on chunk sizes and
lengths is the parameter `sizeMax`.

## What the code does that one might not expect

- `encode` accepts header values that begin or end with a space or a tab. Such a
  value reads back shorter. The round trip is exact if and only if there is none
  (`HttpRequest.HeadersExactIff`, `HttpRequest.PaddedValueChanges`).
- Two neighbouring re-arms of the idle timer may be closer than the idle period
  (`IdleRelay.NeighboursMayBeClose`). Any re-arm and the second one after it are a
  period apart, so wake-ups are still linear in time (`IdleRelay.WakeUpsAreLinear`);
  neighbours are, if and only if the silence before the first is no longer than the
  delay of the second (`IdleRelay.NeighboursApartIff`).
- The host relays upstream chunks as they come, while the reader refuses more than
  16384 bytes in a frame and takes an empty frame for the end. A response of unknown
  length arrives whole if and only if it is `Response.Deliverable`. An empty chunk
  with something behind it makes the client report a complete body that is too short,
  or one of a stream that failed; a completed body can be trusted if and only if the
  stream is not `Response.Misleading` (`Response.CompleteIsWholeIff`,
  `Response.EmptyChunkTruncates`, `Response.FailureHidden`).
- An attachment may show Closed, copied from its peer session, and show Failed
  afterwards (`RegistrySafety.ClosedThenFailed`). `RegistrySafety.ClosedIsFinalIff`
  says from which states.
- A terminal error is never cleared, but one step replaces it: in a session, a close
  of the endpoint that times out (`SessionSafety.TerminalReplacedIff`); in an
  attachment, the completion of an aborted task (`RegistrySafety.TerminalReplacedIff`).
- The host may relay a stream that the client never gets: its answer can be lost or
  come too late (`Handshake.Shake`).

## Model

| member | source | states |
|---|---|---|
| HttpBody.ReadLine | crates/locho-web/src/http.rs:112-139 | However the reader splits the stream, one line is read exactly as from the whole stream: the same bytes, or the same limit, format, truncation or transport error, and the reader stands right behind it |
| HttpBody.LineFound | crates/locho-web/src/http.rs:127-138 | A line is found exactly where its line feed is, if it fits the limit and ends in CRLF |
| HttpBody.Reader.FillBuf | crates/locho-web/src/http.rs:164-175 | The buffer shows a non-empty beginning of what is left, of a length the transport chooses, or nothing at the end, or the transport's error |
| HttpBody.Reader.TakeThroughLF | crates/locho-web/src/http.rs:185-198 | One turn of the line loop takes bytes through the first line feed in the buffer, or all of it, and refuses when they exceed the room left |
| HttpBody.Body.ReadSize | crates/locho-web/src/http.rs:222-256 | Reading one chunk-size line, with the limit of its mode, leaves owing exactly what the reference decoder owed, or fails as it does |
| HttpBody.Body.ApplySize | crates/locho-web/src/http.rs:240-254 | Each size leads to the end and its trailer check, to the chunk, or to the buffered limit, as the reference decoder decides |
| HttpBody.Body.ReadTrailer | crates/locho-web/src/http.rs:241-247 | Only a blank line within the trailer limit ends a chunked body |
| HttpBody.Body.NextChunk | crates/locho-web/src/http.rs:215-256 | From a chunk boundary, the CRLF behind the data and the next size line are consumed and nothing is owed more or less than before |
| HttpBody.Body.TakeData | crates/locho-web/src/http.rs:257-281 | Data is handed out in the order of the stream, 1 to 16384 bytes at a time, never beyond the current chunk or length |
| HttpBody.Body.Next | crates/locho-web/src/http.rs:207-284 | One call hands out the first bytes the whole-stream decoder still owes, reports the end exactly when nothing is owed and decoding succeeds, and otherwise fails with its error |
| HttpBody.DecodeTaken | crates/locho-web/src/http.rs:267-280 | Handing data out early and advancing the framing changes nothing about the decoded whole |
| HttpBody.Drain | crates/locho-web/src/http.rs:207-284 | Repeated calls end, and for every split of every stream their pieces concatenate to the reference body with the reference outcome |
| HttpBody.ReadAll | crates/locho-web/src/http.rs:433-445 | A buffered read returns the reference body if decoding succeeds within 8 MiB, and else the error it must return; the space left never goes negative |
| HttpGrammar.ChunkedComplete | crates/locho-web/src/http.rs:215-256 | Every chunked encoding of section 7.1 of RFC 9112 without extensions and trailers, whose size lines and chunks fit the mode's limits, decodes to the concatenated chunks and is consumed through its last CRLF and no further |
| HttpGrammar.ChunkedSound | crates/locho-web/src/http.rs:215-256 | Conversely, whatever the decoder accepts is such an encoding of what it delivered, and exactly that was consumed |
| HttpGrammar.DigitValue | crates/locho-web/src/http.rs:234-239 | Either spelling of a hexadecimal digit, as in the two tables 0-9A-F and 0-9a-f, is worth its place |
| HttpGrammar.OnlyTheseDigits | crates/locho-web/src/http.rs:236-238 | A byte is a digit of a size exactly if it stands in one of these tables |
| HttpGrammar.TextValue | crates/locho-web/src/http.rs:236-239 | A size text is worth the number its digits spell in base 16 |
| HttpGrammar.ChunkedRoundTrip | crates/locho-web/src/http.rs:207-284 | Any list of non-empty chunks, encoded with sizes in any mix of cases and with any leading zeros on lines of at most 1024 bytes, streams back as their concatenation and leaves all that follows |
| HttpGrammar.BufferedRoundTrip | crates/locho-web/src/http.rs:433-445 | Read buffered, they give their concatenation if that is at most 8 MiB and all size lines take at most 64 KiB |
| HttpGrammar.SuccessIff | crates/locho-web/src/http.rs:222-253 | Limits turn success into failure exactly when the chunk headers of the stream exceed them, and never change a body |
| HttpGrammar.BufferedIff | crates/locho-web/src/http.rs:433-445 | A buffered read succeeds if and only if the grammar does, the body is at most 8 MiB and all size lines together at most 64 KiB |
| HttpGrammar.StreamingIff | crates/locho-web/src/http.rs:222-233 | Streaming succeeds if and only if the grammar does and each size line is at most 1024 bytes |
| HttpGrammar.ModesAgree | crates/locho-web/src/http.rs:222-253 | When both modes succeed they deliver the same body; when buffered succeeds, streaming does if and only if no size line exceeds 1024 bytes |
| HttpFaults.LineFaults | crates/locho-web/src/http.rs:112-139 | What each faulty line gives: too long, without its CR, cut by the end of the stream or by its error |
| HttpFaults.ChunksDelivered | crates/locho-web/src/http.rs:207-284 | Chunks in order are delivered whatever comes behind them |
| HttpFaults.SizeLineFaults | crates/locho-web/src/http.rs:222-233 | Behind any chunks in order, a size line that is cut, too long or without its CR gives truncatedResponse or the transport error, responseLimit, or invalidResponse |
| HttpFaults.SizeFaults | crates/locho-web/src/http.rs:234-253 | A size that is no hexadecimal number of the machine word gives invalidResponse, one over 8 MiB gives responseLimit when buffered |
| HttpFaults.CutChunk | crates/locho-web/src/http.rs:257-271 | A stream that ends in a chunk delivers what came of it and fails |
| HttpFaults.UnclosedChunk | crates/locho-web/src/http.rs:219-221 | Data that goes on where its CRLF is due is refused after all of the chunk was delivered |
| HttpFaults.TrailerRefused | crates/locho-web/src/http.rs:240-247 | Trailer fields give unsupportedTrailers |
| HttpFaults.LengthBody | crates/locho-web/src/http.rs:257-281 | A body of length n consumes exactly n bytes, or delivers what came and fails |
| HttpHead.ReadBlock | crates/locho-web/src/http.rs:297-306 | Lines through the blank one, within what is left of 64 KiB, independently of the split |
| HttpHeadShape.BlockTaken | crates/locho-web/src/http.rs:297-306 | Any non-blank lines and a blank one, if they fit, are taken as one block, and what follows is left |
| HttpHeadShape.BlockShape | crates/locho-web/src/http.rs:297-306 | Every block is non-blank lines and a blank one |
| HttpHead.Verdict | crates/locho-web/src/http.rs:307-355 | A block is accepted exactly when it parses as HTTP/1.1 with a status from 100 to 599 other than 101, stays within the field limit of all blocks, holds only printable values, and, if interim, no framing fields; names are then lower-case and values trimmed |
| HttpHead.JudgeLawful | crates/locho-web/src/http.rs:316-323 | Whatever the head parser returns, accepted blocks respect the status range and the field limit |
| HttpHead.ReadOneHead | crates/locho-web/src/http.rs:297-347 | One block is read and judged as in the whole stream, and the byte count it reports is what it consumed |
| HttpHead.ReadHead | crates/locho-web/src/http.rs:291-357 | The final head behind interim ones is the whole stream's, with the reader at the first body byte and the byte and field counters within their limits |
| HttpHeadShape.FinalHeadIsRead | crates/locho-web/src/http.rs:291-357 | Up to eight interim responses and a final one, together at most 64 KiB: the final head is found, and the reader stands at the first body byte |
| HttpHeadShape.NineInterimHeads | crates/locho-web/src/http.rs:295-357 | A ninth interim response gives responseLimit |
| HttpHeadShape.HeadShape | crates/locho-web/src/http.rs:291-357 | Every head that is found stands behind interim ones only, all of them accepted |
| HttpHead.ScanIff | crates/locho-web/src/http.rs:361-393 | The field scan accepts exactly the acceptable fields: no bad length, coding, encoding or connection member, at most one coding, one agreed length |
| HttpHeadShape.FirstRefusal | crates/locho-web/src/http.rs:361-393 | A refused scan gives the error of the first field refused |
| HttpHead.FramingIsSound | crates/locho-web/src/http.rs:394-414 | The framing follows section 6.3 of RFC 9112: none for bodiless responses, never a length and a coding together, chunked or a length exactly when the fields say so, and that length |
| HttpHeadShape.StartIff | crates/locho-web/src/http.rs:361-402 | A response is not refused for its framing exactly when its fields are acceptable, it has not both a length and a coding, a 204 has neither, and a 205 no coding and no length but 0 |
| HttpHeadShape.FramingIs | crates/locho-web/src/http.rs:403-414 | No body exactly for HEAD, 204, 205 and 304; else chunked, of the given length, or to the end, as the fields say |
| HttpHeadShape.NormalField | crates/locho-web/src/http.rs:325-344 | Names are lower-cased and values lose the blanks around them, and nothing else |
| HttpHeadShape.MembersOf | crates/locho-web/src/http.rs:382-390 | The members of a Connection value are its parts between commas, trimmed and in lower case |
| HttpHeadShape.ListedIff | crates/locho-web/src/http.rs:382-390 | The names listed are the members of all Connection fields |
| HttpHeadShape.HandedOn | crates/locho-web/src/http.rs:415-417 | Of each field as many copies are handed on as arrived, unless it is one of the nine of the connection, the length, or listed |
| HttpHead.RetainExact | crates/locho-web/src/http.rs:415-417 | Of each field as many copies are handed on as arrived, or none if it concerns the connection or is the length |
| HttpHead.RetainInOrder | crates/locho-web/src/http.rs:415-417 | Fields are handed on in their order |
| HttpHead.ScanHead | crates/locho-web/src/http.rs:358-417 | The two loops over the fields compute the specified framing and field list, or the error of the first field refused |
| HttpHead.Open | crates/locho-web/src/http.rs:287-431 | The body object stands behind the head with the specified framing, and its trailer limit is what the head left of 64 KiB, which is never negative |
| HttpHead.Read | crates/locho-web/src/http.rs:433-445 | For every split of the stream a buffered read returns the response the whole stream stands for, or its error |
| HttpText.IsIff | crates/locho-web/src/http.rs:88-95 | Names are compared as ASCII, letters in either case |
| HttpText.HopIff | crates/locho-web/src/http.rs:28-41 | The fields of one connection are the nine listed names |
| HttpText.TrimTakesBlanks | crates/locho-web/src/http.rs:336-343 | Trimming takes the spaces and tabs around a text, and nothing else |
| HttpText.DecimalValue | crates/locho-web/src/http.rs:363-372 | A length is worth the number its decimal digits spell |
| HttpRequest.Encode | crates/locho-web/src/http.rs:43-110 | A request is refused exactly as listed, with the first error in the order of the checks, and otherwise printed whole |
| HttpAcceptance.AcceptedIff | crates/locho-web/src/http.rs:43-110 | A request is accepted if and only if its timeout is 1 to 300000 ms, its method one of seven, its body at most 4 MiB and empty for GET and HEAD, its path and authority in order byte by byte and to the URI library, its at most 96 headers tokens outside thirteen names with printable values, and its printed head at most 64 KiB |
| HttpAcceptance.RefusedWith | crates/locho-web/src/http.rs:44-84 | Up to the headers, the error is that of the first condition that fails |
| HttpAcceptance.HeaderRefusedWith | crates/locho-web/src/http.rs:87-106 | Behind them, invalidHeader exactly for a bad header that comes first of all or before the head is too long, and else requestLimit |
| HttpRequest.PrintedReadsBack | crates/locho-web/src/http.rs:85-110 | A printed request parses, by sections 3 and 5 of RFC 9112, to its method, path, fields in order and body with nothing left over |
| HttpRequest.EncodeReadsBack | crates/locho-web/src/http.rs:43-110 | Every request that is not refused reads back as itself behind the four fields `encode` adds, with values trimmed |
| HttpRequest.OneHostOneLength | crates/locho-web/src/http.rs:85-98 | Among all printed fields there is exactly one Host, the authority, and one Content-Length, the length of the body |
| HttpRequest.HeadersExactIff | crates/locho-web/src/http.rs:43-110 | Of every accepted request the server reads exactly the four added fields and the caller's headers if and only if no value begins or ends with a space or a tab |
| HttpRequest.PaddedValueChanges | crates/locho-web/src/http.rs:88-110 | A whole accepted request whose parse holds another header value |
| Session.Channels.Update | crates/locho-core/src/session.rs:411-423 | A state change raises the revision and version by one, keeps the path only while Connected, and keeps the last error until a new one or a connection; on the channels of any state of the machine it is the machine's publication |
| Session.Channels.SetPath | crates/locho-core/src/session.rs:425-451 | A path is published only when its text changed, and then with one revision more |
| Session.Channels.Invalidate | crates/locho-core/src/session.rs:264-276 | The slot is cleared, and its version raised, only if it holds this lease's generation; on the channels of any state it is the machine's invalidation |
| Session.StatusObserver.Next | crates/locho-web/src/lib.rs:82-110 | A call reports the first or a new status, nothing after Closed or when cancelled before or while it waits, an error when the channel has no sender and shows no Closed, and else waits; only a report changes the observer |
| SessionSafety.NoLostInvalidation | crates/locho-core/src/session.rs:524-549 | In every run, a driver waiting with no unseen slot version waits on a slot that holds its own connection |
| SessionSafety.OnlyItsOwnLeaseClears | crates/locho-core/src/session.rs:264-276 | In every run, a published connection leaves the slot only through a lease of its own generation or the driver; a lease of another generation changes nothing at all |
| SessionSafety.LeftForAReason | crates/locho-core/src/session.rs:521-567 | A driver that gives up generation g was earlier given a reason for g: its own lease cleared it, its connection closed, or its path stream ended |
| SessionSafety.LeavesOnlyFrom | crates/locho-core/src/session.rs:524-567 | Supervising a connection ends only by that, by a requested shutdown or by dropping the driver, and keeps its generation until then |
| SessionProgress.LossIsReported | crates/locho-core/src/session.rs:545-567 | Once the driver takes the branch of a closed connection, an ended path stream or an empty slot, its next two steps clear the slot and report the loss, whatever others do: the slot is empty, the state Reconnecting with its error, and one wait of 250 ms was added |
| SessionProgress.NeverAgain | crates/locho-core/src/session.rs:524-567 | A generation that was given up is never published again in any run |
| SessionProgress.ConnectionIsPublished | crates/locho-core/src/session.rs:520-535 | A connection made is announced as Connected without an error, its paths are read, and it is put into the slot under a new generation |
| SessionProgress.PublishedIsWatched | crates/locho-core/src/session.rs:530-541 | The driver marks what it published as seen and waits, unless the slot was cleared first |
| SessionProgress.InvalidationIsNoticed | crates/locho-core/src/session.rs:546-549 | A waiting driver can wake up after its connection was invalidated, and then gives it up |
| SessionProgress.FailureIsRetried | crates/locho-core/src/session.rs:496-519 | A failed attempt reports its error, adds its wait, and is tried again unless shutdown ends the wait |
| SessionProgress.TopTriesAgain | crates/locho-core/src/session.rs:473-494 | From the top there is another attempt, announced as such, or Failed when the endpoint is closed |
| SessionProgress.StopEndsClosed | crates/locho-core/src/session.rs:453-466 | A driver that stops publishes Closing, clears the slot, and ends with Closed and the terminal error it had or the timeout of its close |
| SessionProgress.DropEndsClosed | crates/locho-core/src/session.rs:576-592 | A dropped driver takes no step of its own any more, clears the slot and ends with Closed and DriverStopped |
| SessionProgress.ShutdownIff | crates/locho-core/src/session.rs:243-244 | Shutdown is requested exactly when someone asked, the driver cancelled itself, or it was dropped |
| SessionSafety.StopsForAReason | crates/locho-core/src/session.rs:453-484 | A driver past its supervising loop was stopped by a step of the run: someone asked for shutdown or called close, it found its endpoint closed, or it was dropped |
| SessionSafety.PublishStep | crates/locho-core/src/session.rs:411-466 | Each step publishes at most once, raising revision and version by one; nothing is published after Closed |
| SessionSafety.StatusOverRuns | crates/locho-core/src/session.rs:411-466 | Over any stretch of any run the revision rises by the number of publications, equal revisions mean equal statuses, and a terminal error is not cleared |
| SessionProgress.StatusTellsHistory | crates/locho-core/src/session.rs:411-451 | In every run the last error and the path of the status are those its history gives |
| SessionSafety.TerminalReplacedIff | crates/locho-core/src/session.rs:453-466 | In every run a terminal error is replaced by exactly one step, a close of the endpoint that times out, and then by that timeout |
| SessionSafety.TerminalReplaced | crates/locho-core/src/session.rs:453-484 | A run in which that happens |
| SessionSafety.StatusSafety | crates/locho-core/src/session.rs:411-480 | A known path implies Connected; an occupied slot implies Connected, or Closing with shutdown requested; Closed implies an empty slot |
| SessionSafety.ClosedIsFinal | crates/locho-core/src/session.rs:453-466 | After Closed no run publishes a status or a connection |
| SessionSafety.CloseCallersAgree | crates/locho-core/src/session.rs:243-256 | All close calls that reached Closed return the same result, and a waiting one cannot miss it |
| SessionSafety.ObserverOrder | crates/locho-web/src/lib.rs:82-110 | An observer sees strictly rising revisions, Closed at most once and last, and on a closed session it has seen Closed or can |
| SessionProgress.SubscribersTellHistory | crates/locho-web/src/lib.rs:82-110 | Each observer was given exactly what was published at its calls, and each close call stands where its looks left it |
| SessionProgress.LeasesTellHistory | crates/locho-core/src/session.rs:186-211 | The leases are those of the connections that were published when acquired |
| SessionSafety.FirstConnectionSchedule | crates/locho-core/src/session.rs:496-519 | Before the first connection, retry k waits min(250 * 2^k, 30000) ms |
| SessionSafety.RecoverySchedule | crates/locho-core/src/session.rs:558-567 | After it, every retry waits exactly 250 ms |
| Schedule.DoubledIsNext | crates/locho-core/src/session.rs:595-599 | Doubling a capped delay gives the next delay of the capped schedule |
| IdleRelay.RelayClock.Poll | crates/locho-core/src/protocol.rs:249-275 | A poll stamps the clock exactly when it moved bytes |
| IdleRelay.RelayClock.TimerFired | crates/locho-core/src/protocol.rs:222-240 | A fired timer expires the relay, or re-arms for one period after the last byte |
| IdleRelay.RunRelay | crates/locho-core/src/protocol.rs:201-241 | The relay loop does to its clock exactly what the events make of it, a run of the timer machine, and reports idleness exactly when that run expired |
| IdleRelay.ExpiresOnlyIdle | crates/locho-core/src/protocol.rs:221-241 | A relay expires only after a whole period without a byte in either direction |
| IdleRelay.StaleDeadlineNeverLate | crates/locho-core/src/protocol.rs:221-241 | An armed deadline is never later than one period after the last byte |
| IdleRelay.WakeUpsAreLinear | crates/locho-core/src/protocol.rs:221-241 | Every re-arm and the second one after it are a period apart, so n re-arms take at least n/2 periods |
| IdleRelay.NeighboursApartIff | crates/locho-core/src/protocol.rs:221-241 | A fire that re-arms and the next fire are a period apart if and only if the silence before the first was no longer than the second's delay behind its deadline; if the second is on time, if and only if a byte moved at the instant of the first |
| IdleRelay.NeighboursMayBeClose | crates/locho-core/src/protocol.rs:221-241 | A run whose two re-arms are one unit apart, with a period of ten |
| IdleRelay.LazyRefinesEager | crates/locho-core/src/protocol.rs:210-241 | Each step of the lazy timer is a step of a timer reset on every byte, or a re-arm that one does not notice |
| IdleRelay.EagerRefinesLazy | crates/locho-core/src/protocol.rs:210-241 | Each step of the reset timer, expiry included, is possible for the lazy one at the same time to the same effect |
| Frames.U32RoundTrip | crates/locho-core/src/protocol.rs:102-123 | The big-endian length prefix reads back |
| Frames.BigEndian | crates/locho-core/src/protocol.rs:108-109 | The length prefix has its most significant byte first |
| Frames.TakeFrameWhole | crates/locho-core/src/protocol.rs:113-173 | A frame within the limit is read back exactly and nothing behind it is touched |
| Frames.TakeFrameCut | crates/locho-core/src/protocol.rs:113-173 | No shorter beginning of a frame is read as a frame |
| Frames.TakeFrameOver | crates/locho-core/src/protocol.rs:161-163 | A frame over the limit is refused |
| Frames.Sink.WriteFrame | crates/locho-core/src/protocol.rs:140-146 | Prefix and bytes are written in order, cut where the transport fails |
| Frames.Source.ReadFrame | crates/locho-core/src/protocol.rs:154-173 | The reader takes exactly one frame within the limit, or fails |
| Upload.SendFramed | src/attach.rs:763-767 | A body frame goes out as its pieces of 1 to 16384 bytes, none for an empty frame |
| Upload.UploadFramed | src/attach.rs:753-772 | The bytes sent are the framed upload cut where the transport fails, with the error of the first refused frame, the limit or the transport |
| Upload.UploadPlain | src/attach.rs:733-752 | The same for a known length: never more bytes than declared, and an error unless exactly as many |
| Upload.FramedStopsAt | src/attach.rs:753-772 | An upload of unknown length stops at its first frame that is not data within 32 MiB, with that frame's error, all before it sent |
| Upload.PlainStopsAt | src/attach.rs:733-752 | One of a known length stops likewise, or reports that the length changed |
| Upload.UploadBody | src/attach.rs:725-772 | The whole upload: nothing of a declared length over 32 MiB, else one of the two loops |
| Upload.ReceiveFramed | src/host.rs:720-732 | The host forwards chunk after chunk as specified, until the end marker, an error, the limit or a closed upstream |
| Upload.ReceivePlain | src/host.rs:708-719 | The same for a known length, in reads of at most 16384 bytes |
| Upload.ReceiveBody | src/host.rs:701-735 | A declared length over 32 MiB forwards nothing; otherwise the two loops above |
| Upload.FramedShape | src/attach.rs:753-772 | An upload of unknown length is pieces of the body, then the end marker exactly when every frame was data within 32 MiB, and then all pieces |
| Upload.ForwardPieces | src/host.rs:720-732 | The host, on any cut of such pieces, forwards a prefix of them, and succeeds exactly on the whole with its end marker and a willing upstream |
| Upload.FramedUploadForwarded | src/host.rs:699-752 | For every body, cut and upstream: what is forwarded is a prefix of the body; success means the upload succeeded, arrived whole and every piece was taken, and then the whole body was forwarded |
| Upload.PlainUploadForwarded | src/host.rs:699-752 | With a declared length: a prefix always, exactly the declared bytes on success, the whole body if the upload succeeded |
| Upload.UploadForwarded | src/host.rs:699-752 | For every declared length, body, cut and upstream: the host forwards a prefix; of an upload that succeeded it reports success exactly when it arrived whole and every chunk was taken, and then forwarded all of it |
| Response.Relay | src/host.rs:768-804 | The host writes each upstream chunk unsplit, framed or bare, cut where the transport fails, and finishes exactly when the stream ended well within 32 MiB |
| Response.ReadFramed | src/attach.rs:811-827 | The client's chunk loop yields the specified chunks and completes only at an end marker |
| Response.ReadPlain | src/attach.rs:791-809 | With a known length it yields exactly that many bytes in reads of at most 16384, or fails |
| Response.FramedReplyReceived | src/host.rs:753-804 | For every upstream stream and every cut of the reply: the client gets a prefix of the upstream body; and unless the stream is misleading, a body it completes is all of it, from a stream that ended well |
| Response.MisleadingIsIncomplete | src/host.rs:769-804 | Every misleading stream, with an empty chunk that has data, a failure or the limit behind it, makes the client complete a body that is not all of one that ended well |
| Response.CompleteIsWholeIff | src/attach.rs:808-828 | A completed body can be trusted under every cut of the reply if and only if the upstream stream is not misleading |
| Response.DeliveredIff | src/host.rs:769-804 | For every upstream stream: its reply arrives complete and whole if and only if it ends well within 32 MiB, has no chunk over 16384 bytes up to the first empty one, and nothing left after that one |
| Response.EmptyChunkTruncates | src/host.rs:790-800 | An empty chunk in the middle: the client completes one byte of two |
| Response.FailureHidden | src/host.rs:769-804 | A stream that fails behind an empty chunk, which the client completes |
| Response.PlainReplyReceived | src/attach.rs:790-809 | With a known length: a prefix always, and with a truthful length a completed body is the upstream body |
| HostStream.AtMostOneHead | src/host.rs:377-434 | At every point of every run, whatever fails or times out, the bytes written are a prefix of one answer or of one error head, and no error head follows a started answer |
| HostStream.FailureIsAnswered | src/host.rs:391-430 | A failure before the answer was started is answered with its status, 504 at the deadline; one after it ends the stream |
| HostStream.WritesGoOn | src/host.rs:627-640 | Write by write the whole error head, or the whole answer, goes out |
| HostStream.AnswerIsStarted | src/host.rs:759-766 | An answer goes out as it was produced, and only once it is marked as started |
| Handshake.HandleStream | src/host.rs:279-322 | The host answers 408 to a late head, 400 to an unreadable one, and otherwise as judged; it relays exactly when it passed all checks and its answer was written, and stands right behind the head |
| Handshake.JudgeIff | src/host.rs:458-573 | The host passes a client exactly when service, secret proof, type, endpoint, permit and connect are all right |
| Handshake.WriteRequest | crates/locho-core/src/session.rs:378-392 | The client's request head is one frame carrying version, service and proof; it is written whole, or cut where the transport fails, or not at all if it is too long for its prefix |
| Handshake.ReadResponse | crates/locho-core/src/session.rs:393-408 | The client accepts only an empty 200 answer of its own version, and then stands right behind it |
| Handshake.ReadMeans | crates/locho-core/src/session.rs:393-408 | Success was a 200 of version 3 without headers and body; another status of 100 to 599 is reported as such; everything else is a protocol error |
| Handshake.RefusalIsReported | crates/locho-core/src/session.rs:393-401 | A refused client learns the host's status |
| Handshake.ReadPlainly | crates/locho-core/src/session.rs:393-408 | Of all host answers only 200 is read as success, and what is behind it is left |
| Handshake.Shake | crates/locho-core/src/session.rs:278-408 | Over transports that may cut either direction and a client that may give up: the host relays exactly when the head arrived whole and in time, every check passed and its answer was written; the client gets a stream exactly when the host relays and its whole answer comes in time; each then stands at the other's first application byte |
| HandshakeCodec.LawfulCodec | crates/locho-core/src/protocol.rs:102-132 | Some codec meets all that the handshake asks of the head encodings |
| Registry.Control.MarkClosing | crates/locho-client-native/src/client.rs:100-107 | Closing is published unless Closed is shown |
| Registry.Control.MarkClosed | crates/locho-client-native/src/client.rs:108-115 | Closed is published with the given error |
| Registry.WaitClosed | crates/locho-client-native/src/client.rs:116-132 | The first Closed a waiter sees decides its result, the terminal error shown with it; without one it times out |
| Registry.Records.Register | crates/locho-client-native/src/client.rs:197-206 | A closed registry refuses and stays as it is; an open one lists the control under a fresh number |
| Registry.Records.BeginClose | crates/locho-client-native/src/client.rs:241-245 | The registry is closed and the snapshot holds every listed control |
| Registry.Records.FinishClose | crates/locho-client-native/src/client.rs:263-267 | The first error stays, and is what is returned |
| Registry.Records.Complete | crates/locho-client-native/src/client.rs:287-302 | A control that does not show Closed is cancelled and shows TaskFailed; its terminal error reaches a closed registry, and it is unlisted |
| Registry.CancelAll | crates/locho-client-native/src/client.rs:246-248 | The loop cancels every control of the snapshot and changes nothing else |
| RegistrySafety.AttachmentStep | crates/locho-client-native/src/client.rs:366-536 | Every step of an attachment's task, guard or holder keeps its invariant: revisions rise, cancellation and terminal errors last, and a final status stays |
| RegistrySafety.ClosedIsFinalIff | crates/locho-client-native/src/client.rs:465-506 | A shown Closed is final unless it was copied from the peer and its failure is not shown yet; from exactly those states Failed can follow |
| RegistrySafety.ClosedThenFailed | crates/locho-client-native/src/client.rs:464-535 | A run of the client in which an attachment shows Closed, then Failed with its error, and then TaskFailed in its place |
| RegistrySafety.TerminalReplacedIff | crates/locho-client-native/src/client.rs:287-293 | An attachment's terminal error is replaced by exactly one step, the completion of a task aborted before it showed Closed, and then by TaskFailed |
| RegistrySafety.IdsAreNeverReused | crates/locho-client-native/src/client.rs:197-206 | In every run no two attachments share an id, and the registry lists exactly those whose completion has not happened |
| RegistrySafety.NothingRegisteredAfterClose | crates/locho-client-native/src/client.rs:197-206 | From the moment the closed flag is set no run registers an attachment, and a close error, once set, stays |
| RegistrySafety.CloseCancelsEverything | crates/locho-client-native/src/client.rs:240-262 | From the end of any close call's cancel loop on, every attachment ever registered is cancelled or completed |
| RegistrySafety.CloseErrorsAgree | crates/locho-client-native/src/client.rs:263-267 | After a close call returned an error, all later ones return that same error |
| RegistryHistory.CloseReturnsFirstError | crates/locho-client-native/src/client.rs:249-267 | A close call returns the error the registry was told first, or else the first it met itself: a terminal error it saw or its timeout; and none exactly if there was none |
| RegistryHistory.CloseWaitsForAll | crates/locho-client-native/src/client.rs:249-262 | It returns only when it saw each attachment of its snapshot Closed or gave it up |
| RegistryHistory.CloserTellsHistory | crates/locho-client-native/src/client.rs:240-268 | A close call is cancelling, waiting, over or abandoned as its own steps say |
| RegistrySafety.FailuresReachLaterCloses | crates/locho-client-native/src/client.rs:293-301 | An attachment that completes with an error after the client was closed makes every later close return an error, the first one known |
| RegistrySafety.NoOrphans | crates/locho-client-native/src/client.rs:271-320 | An attachment that is neither cancelled nor past its loop has a living starter or holder, and a living client |
| RegistryHistory.AttachmentTellsHistory | crates/locho-client-native/src/client.rs:366-536 | An attachment that ended shows the error its history gives, is cancelled exactly when something cancelled it, and answered its starter as its history says |
| RegistryHistory.EndingGoesOn | crates/locho-client-native/src/client.rs:498-535 | From every branch that ends its loop an attachment cancels, shows Failed with its failure, Closing, and Closed with that failure or the cleanup's |
| RegistryHistory.PeerIsMirrored | crates/locho-client-native/src/client.rs:464-470 | Until then it shows what its peer session publishes |
| StreamOwner.PermitsConserved | crates/locho-web/src/lib.rs:394-468 | In every run free permits, requests under way and live owners make 16, and a finish that came back left its owner's permit free |
| StreamOwner.ResultsSettle | crates/locho-web/src/lib.rs:165-178 | A stream's results are bytes up to one outcome, the owner's stored one, and every later call repeats it |
| StreamOwner.AfterTheEnd | crates/locho-web/src/lib.rs:165-178 | Once the owner is gone its outcome is fixed, and whatever returns, returns it |
| StreamOwner.CallsAnswered | crates/locho-web/src/lib.rs:165-178 | An answered call keeps its answer, and when the owner is gone every open call can return |
| StreamOwner.CallIsServed | crates/locho-web/src/lib.rs:165-178 | On an idle stream with reads left a call is queued, taken and answered with the next read |
| StreamOwner.CallAfterEnd | crates/locho-web/src/lib.rs:165-178 | After the end a new call, one that cannot be sent and one whose reply was dropped return the outcome |
| StreamOwner.EndStored | crates/locho-web/src/lib.rs:457-464 | The outcome is the closed client's code, the cancelled stream's code, the error of the last read, or the end |
| StreamOwner.ClientTellsHistory | crates/locho-web/src/lib.rs:369-470 | The requests under way, the streams and the finished ones are what the history says; each stream depends on its own steps alone |
| StreamOwner.PermitMoves | crates/locho-web/src/lib.rs:394-398 | A permit is taken and given back with its request, or with the owner's end |
| StreamOwner.BodyDelivered | crates/locho-web/src/lib.rs:437-468 | The bytes returned are the body's reads in order, and all of them once an end was returned |
| StreamOwner.ServePulls | crates/locho-web/src/lib.rs:439-456 | The owner's loop over a real body: its replies are the beginning of the reference body, all of it when it ends, with the reference decoder's error |
| JsStream.Handles.FreeOnce | packages/locho-web/src/index.ts:223-229 | Handles are freed, and `stop` unregistered, on the first call only |
| JsStream.Handles.BeginStop | packages/locho-web/src/index.ts:258-262 | The first stop of an unreleased stream marks it and errors its reader; later ones do nothing |
| JsStream.Handles.StopGoesOn | packages/locho-web/src/index.ts:263-264 | Once the pull in flight settled, finish is awaited unless the handles are gone |
| JsStream.Handles.StopEnds | packages/locho-web/src/index.ts:264-265 | After finish the handles are released |
| JsStream.Handles.PullEnds | packages/locho-web/src/index.ts:244-251 | A pull that found the end or an error releases, unless the stream was stopped meanwhile |
| JsStream.FreedOnceAndIdle | packages/locho-web/src/index.ts:217-271 | In every run the handles are freed at most once and never while next or finish is pending, and every later use finds them alive |
| JsStream.StopReleases | packages/locho-web/src/index.ts:252-266 | An abort or a cancelled reader stops a response: its reader sees no more, and once the pull in flight and finish settled its handles are freed |
| JsStream.NothingLeaks | packages/locho-web/src/index.ts:223-271 | A call that threw, a response without a body and a body read to its end or an error are all released |
| JsStream.FetchResolves | packages/locho-web/src/index.ts:230-271 | However the request resolves, it is rejected and freed, handed out, or stopped and abandoned |
| JsStream.NoStreamOutlivesClose | packages/locho-web/src/index.ts:288-296 | When close has resolved, every response handed to a caller is released and unreadable |
| JsStream.CloseStops | packages/locho-web/src/index.ts:288-296 | The client's close stops every registered response |
| JsStream.ClientTellsHistory | packages/locho-web/src/index.ts:209-296 | Each stream is what its own steps and the client's close made of it |
| Admission.Admit | crates/locho-client-native/src/forward.rs:121-128 | A connection gets both permits or keeps none; it is admitted exactly when both are free |
| Admission.PermitsConserved | crates/locho-client-native/src/forward.rs:112-154 | For any listeners and any interleaving, a listener's free, asking and held permits make 128, and free and held process permits make 512 |
| Admission.PermitsTellHistory | crates/locho-client-native/src/forward.rs:112-154 | A permit is held exactly by the tasks that were admitted and have not given it up, and a listener accepts until it is stopped |
| Admission.RefusedIffFull | src/attach.rs:437-464 | The first permit is refused exactly at 128 held ones, the second exactly at 512, and a refusal restores the state before it |
| AcceptRetry.Retrier.Accept | crates/locho-client-native/src/listener.rs:45-85 | A call does to its fields exactly what its turns make it do, a run of the retry machine; it returns the first answer that is not a transient failure, and keeps a pending deadline when dropped |
| AcceptRetry.Retrier.Take | crates/locho-client-native/src/listener.rs:67-83 | Success resets the delay, a transient failure sets the deadline and doubles the delay to at most 1000 ms, a permanent one changes nothing |
| AcceptRetry.NoEarlyAttempt | crates/locho-client-native/src/listener.rs:45-85 | In every run, after failure k since the last success no attempt begins for min(100 * 2^k, 1000) ms, however often the call is dropped and entered again |
| AcceptRetry.DeadlineIsExact | crates/locho-client-native/src/listener.rs:45-85 | The pending deadline is the one the history of failures and successes gives, so attempts are delayed no longer than that |

## Left out

- Peer endpoints, QUIC, TLS, DNS, relays and the HTTP client and server libraries: foreign code, seen here as byte streams, pipes that may fail anywhere, and outcomes.
- The JSON of tunnel heads and the SHA-256 secret proof: any functions for which reading undoes writing and the host's own answers are at most 1 MiB long; no cryptographic fact is used.
- The response-head parser and the URI parsers that `head` and `encode` call: parameters, with no assumption but their result type.
- The supervising loop of the session, the attachment task, the host's stream handler and the JavaScript client: their interleavings are machines over values, not objects updated in place, because other tasks act between any two of their steps. Only the objects they share are classes.
- Progress: that a waiting task is eventually scheduled, that a timeout fires. The theorems say what holds at every point, and which steps are then possible.
- The time limits around handshakes, requests, closing and cleanup: a limit that passes is one more step that may happen.
- HostStream.AtMostOneHead: the 400 and 408 answers to an unreadable or late request head come before this machine starts.
- StreamOwner.PermitsConserved: the sixteen observer permits are a second semaphore of the same kind and are not modelled.
- Registry: the 64-bit attachment counter does not wrap around here; that takes 2^64 starts.
- IdleRelay: the policy without a deadline, which never fires, and the copying itself.
- HttpRequest: Unicode text; requests are byte strings, and every byte above 126 that the source refuses is refused.
- Tickets, capabilities, configuration, Unix sockets and their permissions, relay selection, diagnostics, the command line, the Flutter bridge and packaging: wrappers over libraries and files, or checks field by field that would only add easy members.
- The health check of the web client and the buffered request's own permit path: the same permit and codec once more.
