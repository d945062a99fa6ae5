# php-grpc-lite, verified

A Dafny model of the state machines at the heart of php-grpc-lite, a gRPC client extension
that talks HTTP/2 through nghttp2, and proofs about every run of them.  The session, the
socket, the clock and the peer are left open: a session may emit any octets and report any
events, a write may take any part of what it is given or fail.

| file | component |
|---|---|
| `Bytes.dfy`, `Decimal.dfy` | octets, sequence vocabulary, decimal numerals |
| `Framing.dfy` | Length-Prefixed-Messages, the decoder as a machine over octets, and the whole-body meaning it is compared with |
| `Decoder.dfy` | the resumable chunk decoder and its queue, in place |
| `LegacyParsers.dfy` | the length validator and the whole-body parser, tied to the decoder |
| `Response.dfy` | header, frame and data events, status, attempt outcome, response metadata |
| `Outcome.dfy` | what a response comes to, told from its history alone |
| `Delivery.dfy` | what `next` delivers on streams that share a connection |
| `Output.dfy` | the request source, the coalescing buffer, and the copy and writev forms |
| `ActiveStreams.dfy` | the intrusive list of active streams, spliced in place, and GOAWAY |
| `Lifecycle.dfy`, `Effects.dfy`, `ConnectionCache.dfy`, `Operations.dfy`, `Wear.dfy`, `Runs.dfy` | connections, calls, owners, the cache and destruction over whole runs |
| `Retry.dfy` | the two loops that repeat a refused request |
| `ConnectionKey.dfy`, `Timeout.dfy`, `RequestHeaders.dfy` | the canonical channel description, grpc-timeout, the growing header table |

Addresses in `Lifecycle.dfy` are map keys and freeing removes the key, so a dangling pointer is
a key that is not there.  Addresses of destroyed connections are not handed out again.

Three statements about single functions of the source are false as they stand; each has an input
and the exact condition.  None of the inputs reaches these functions in the extension:

* the length validator, called on its own, does not terminate when DATA follows a message it has
  refused and that announced no payload (`LegacyParsers.LoopsExactlyWhenStuck`,
  `LegacyParsers.LoopingExample`).  Unary and streaming calls decode directly and never use it, and
  its remaining caller asks first whether the call discards, behind which the loop always ends
  (`LegacyParsers.GuardedNeverLoopsFromStart`);
* the decision whether a response has started, taken on its own, is not monotone: a second
  `:status` that reads as negative, within the same HEADERS and with no other field, takes it back
  (`Response.StartedStays`, `Response.NegativeStatusUndoes`).  nghttp2 checks HTTP messages and
  lets one `:status` of three digits through, so no peer can cause this
  (`Response.ThreeDigitsAreLawful`);
* the canonical channel description cuts a name at its first NUL, so it tells two names apart
  only if neither holds one before its last character (`ConnectionKey.ConfusedExactly`); the
  channel checks exclude that.

## Model

| member | source | states |
|---|---|---|
| `Framing.HeaderCarriesLength` | src/transport.c:2138-2146 | the five octets put before a message carry flag 0 and read back as its length |
| `Framing.ChunkingIrrelevant` | src/transport.c:2893-3027 | however a byte stream is split into DATA chunks, the decoder of the stream being read ends in the same queue, flags and framing state |
| `Framing.DecodesExactly` | src/transport.c:2893-3027 | the decoder ends idle, unfailed and with queue `ms` if and only if the bytes are the concatenated encodings of `ms` and the limits admit `ms`; empty messages included |
| `Framing.FeedImage` | src/transport.c:2908-3025 | queue plus partial message, re-encoded, are exactly the octets consumed while nothing failed, and a front part of them after a failure other than the queue limit |
| `Framing.TurnAdvances` | src/transport.c:2912-3025 | a loop turn consumes at least one octet and leaves the rest of the chunk to do, with the result of feeding octet by octet |
| `Framing.ForeignReadBounded` | src/transport.c:3029-3077 | a chunk read on behalf of another call leaves the queue as it was or within the message and byte bounds |
| `Framing.DroppedExactly` | src/transport.c:3029-3041 | a message is dropped if and only if another call reads and the queue with it would be over the message or byte bound |
| `Framing.ForeignReadExactly` | src/transport.c:3029-3077 | messages read on behalf of another call end up as if the stream had read them itself if and only if the queue stays within both bounds; else the queue limit is raised |
| `Framing.RefusedHeaderMarks` | src/transport.c:2921-2977 | exactly which mark a refused header raises, in the order count, size, flag, whatever follows it |
| `Framing.QueueLimitStays` | src/transport.c:3043-3054 | the queue-limit mark is never taken back by later octets |
| `Framing.ParseEncoded` | src/diagnostic/bench.c:87-167 | cutting a body that starts with encoded messages yields those messages and then whatever the rest yields |
| `Decoder.ResponseStream.EnqueuePayload` | src/transport.c:3056-3077 | adds one message or drops it under the read-ahead limit; queue counters stay exact |
| `Decoder.ResponseStream.PopPayload` | src/server_streaming_call.c:342-350 | takes the oldest message; counters stay exact |
| `Decoder.ResponseStream.TakeUnaryPayload` | src/unary_call.c:55-75 | takes the oldest message or nothing; the guards on the counters never bite |
| `Decoder.ResponseStream.FreeQueue` | src/transport.c:3079-3090 | empties queue and counters |
| `Decoder.ResponseStream.JudgeHeader` | src/transport.c:2921-2977 | accepts a complete header exactly if count, size and flag allow it, else raises the first applicable mark |
| `Decoder.ResponseStream.TakeTurn` | src/transport.c:2912-3025 | one loop turn in place equals one turn of the octet machine; the partial payload is as long as its offset |
| `Decoder.ResponseStream.DecodeChunk` | src/transport.c:2908-3027 | the loop over a chunk ends where feeding it octet by octet ends |
| `Decoder.ResponseStream.ProcessData` | src/transport.c:2893-3027 | DATA after a grpc-status only marks the status invalid; else the chunk is decoded unless the call discards |
| `LegacyParsers.ProcessBody` | src/diagnostic/bench.c:87-167 | hands over exactly the messages of the body, up to the one the consumer rejects, and fails on an incomplete tail only when told to |
| `LegacyParsers.BodyParserAgrees` | src/diagnostic/bench.c:87-167 | on streams the decoder does not fail, the body parser yields the decoder's queue and reports incomplete exactly when the decoder is inside a message |
| `LegacyParsers.ValidateLengths` | src/transport.c:2824-2891 | the validator's loop over a chunk equals the validator octet by octet, including when it would never end |
| `LegacyParsers.LoopsExactlyWhenStuck` | src/transport.c:2834-2890 | the loop never ends on a chunk if and only if the chunk is not empty, no size mark is up, and a complete header without payload is still held |
| `LegacyParsers.StuckOnlyAfterRefusal` | src/transport.c:2853-2872 | that state is reached exactly by refusing a header of length zero, and the call then discards |
| `LegacyParsers.LoopingExample` | src/transport.c:2834-2890 | the bare function, given a refused message of five octets and then one more octet without asking whether the call discards, never ends |
| `LegacyParsers.GuardedNeverLoopsFromStart` | src/diagnostic/bench.c:264-276 | behind the caller's test for discarding, the loop ends on every chunk of every response |
| `LegacyParsers.ValidatorAgreesFromStart` | src/transport.c:2824-3027 | validator and decoder flag a failure on exactly the same byte streams and hold the same header, length and offset until then |
| `Response.ParseStatusValue` | src/protocol_core.c:15-31 | the digit loop computes the value of a numeral 0 to 16 without leading zero, else -1 |
| `Response.StatusValueExact` | src/protocol_core.c:15-31 | a text reads as `n` in 0..16 if and only if it is the decimal numeral of `n` |
| `Response.ContentTypeExamples` | src/protocol_core.c:33-45 | upper case, a subtype and parameters are gRPC; an empty subtype, another suffix and other types are not |
| `Response.StatusInRange` | src/status_core.c:10-77 | after every event history the resolved status lies in 0..16 |
| `Response.SeenTracksHistory` | src/transport.c:2192-2226 | seen, code and initial marks say exactly which status fields the history holds |
| `Response.InvalidTracksHistory` | src/transport.c:2192-2343 | the status is invalid exactly if there were two status fields, an unreadable one, body after one, or one in initial headers that left the stream open |
| `Response.OkExactly` | src/status_core.c:10-77 | OK if and only if the one status field of the stream's life was "0", no body followed it, it did not leave the stream open, nothing was cancelled and no failure mark is up |
| `Response.OkByName` | src/transport.c:2192-2226 | in terms of names: a call that ends OK received exactly one field called grpc-status, reading "0", with no body after it |
| `Response.OkMeansNeverSpoiled` | src/status_core.c:10-77 | if the call ends OK, no limit, framing, compression, content-type or deadline mark was up at any earlier moment |
| `Response.RunOnlyWorse` | src/transport.c:2179-2361 | no event takes a failure mark back, metadata overflow included |
| `Response.FieldStartsResponse` | src/status_core.c:79-105 | on a call without evidence a field leaves lasting evidence of a response if and only if its name is not empty or another pseudo-header and a `:status` does not read as negative |
| `Response.HeadersSeenExactly` | src/status_core.c:84-95 | after every history, the headers of a response are in evidence if and only if a field that is no pseudo-header was received or the last `:status` reads as not negative |
| `Response.StartedExactly` | src/status_core.c:79-105 | on every history HTTP/2 allows, a response has started if and only if such a field was received, the HEADERS were complete, the call was cancelled, or the last `:status` reads as not negative |
| `Response.NegativeStatusUndoes` | src/status_core.c:84-86 | the bare function: two `:status` fields in one block, the second negative, after which the response no longer counts as started |
| `Response.ThreeDigitsAreLawful` | src/transport.c:2230-2235 | a `:status` of three digits, the only one HTTP/2 lets through, never reads as negative |
| `Response.ReceivedFieldIsRemembered` | src/status_core.c:79-105 | a field other than a pseudo-header, or any field HTTP/2 lets through, is evidence at the end of every history it is part of |
| `Response.StartedStays` | src/status_core.c:79-105 | a response that has started stops counting as started if and only if only `:status` fields were received, in HEADERS that are not complete, and the last one reads as negative |
| `Response.RefusalTracksHistory` | src/status_core.c:107-119 | the refusal marks say exactly which GOAWAY and RST_STREAM events the history holds and which code came last |
| `Response.RetryExactly` | src/status_core.c:121-140 | an attempt is repeatable if and only if it was the first, was refused, shows no evidence of a response and delivered nothing |
| `Response.RetryOnlyIfUnprocessed` | src/status_core.c:121-140 | an attempt is repeatable only if it was the first, was refused, never got a header field and delivered nothing (sections 6.8 and 8.7 of RFC 9113) |
| `Response.MetadataAlwaysExact` | src/transport.c:3092-3125 | entry and byte counts equal what is stored, at most 128 entries, never over the byte limit |
| `Response.EntriesOnlyGrow` | src/transport.c:3092-3133 | stored entries keep key, value and place, and trailing marks only go up |
| `Response.MarkTrailing` | src/transport.c:3127-3133 | the loop marks every entry trailing and changes nothing else |
| `Response.SelectEntries` | src/transport.c:3187-3202 | the loop picks the entries of one kind in order |
| `Response.MapsPartitionEntries` | src/transport.c:3187-3202 | the initial and the trailing map together hold every stored entry exactly once |
| `Response.HeadersOnlyResponseIsTrailing` | src/transport.c:2192-2260 | in initial headers with one readable grpc-status every entry ends up trailing, wherever that field stands |
| `Outcome.StreamTracksHistory` | src/transport.c:2263-2343 | deadline, close, own reset and broken connection are marked exactly if they happened |
| `Outcome.TypeTracksHistory` | src/transport.c:2311-2322 | the content type counts as invalid exactly if one was not gRPC, or the response HEADERS ended without one and were not a status alone |
| `Outcome.MetadataTracksHistory` | src/transport.c:3092-3125 | the stored entries are the longest front part of the metadata fields that both limits allow, each under its own name and value and in its place |
| `Outcome.OverflowExactly` | src/transport.c:3092-3125 | the overflow is raised if and only if the fields are more than 128 or over the byte limit |
| `Outcome.TrailingTracksHistory` | src/transport.c:2192-2260 | without a grpc-status an entry is trailing if and only if its field came in a later block or is the status details |
| `Outcome.OkFromHistory` | src/status_core.c:10-77 | OK if and only if the one status field was "0", no body followed it, the content type and the metadata were in order, the decoder raised nothing, the stream did not end inside a message, and nothing was late or cancelled |
| `Outcome.PushIsMalformed` | src/transport.c:2334-2338 | a push promise marks the response malformed for good |
| `Outcome.DeadlineThenCancel` | src/status_core.c:12-13 | a passed deadline outranks every other reason, a cancel every reason but that |
| `Outcome.StatusOrHttp` | src/status_core.c:14-31 | an unusable grpc-status gives UNKNOWN; without one, an HTTP status other than 200 gives the status gRPC prescribes for it, and none at all UNAVAILABLE |
| `Outcome.ContentFailures` | src/status_core.c:32-37 | after that a bad content type gives UNKNOWN, excess RESOURCE_EXHAUSTED, and a malformed, compressed or cut-off body INTERNAL |
| `Outcome.WireStatusCounts` | src/status_core.c:38 | a sound answer has the status its grpc-status field reads as |
| `Outcome.StatusOfTheStream` | src/status_core.c:39-67 | without one, refusal and a broken connection give UNAVAILABLE and a reset the status gRPC prescribes for its code |
| `Outcome.StatusMissing` | src/status_core.c:68-77 | a clean end without grpc-status gives INTERNAL if it came on DATA and UNKNOWN if it came on HEADERS |
| `Delivery.DeliveredIsWirePrefix` | src/server_streaming_call.c:246-392 | over every interleaving on a shared connection, the messages delivered on a stream are a gap-free front part of the messages on its wire |
| `Delivery.FinalStatusComesLast` | src/server_streaming_call.c:332-392 | without policy failure, cancel or invalid status, the final status comes only after every complete message was delivered |
| `Delivery.OkDeliversEverything` | src/server_streaming_call.c:332-392 | a final OK means every message on the wire was delivered, and the wire holds nothing beyond them unless a reset or a lost connection explains it |
| `Delivery.NothingAfterFailure` | src/server_streaming_call.c:5-17 | after a policy failure or a cancel no later step of any run delivers anything on the stream |
| `Delivery.CancelIsFinal` | src/server_streaming_call.c:423-440 | a cancel on a live connection drops what is queued; in no later run is anything delivered, and every later `next` reports CANCELLED |
| `Delivery.DeadlineEnds` | src/server_streaming_call.c:284-289 | a deadline that passes with nothing queued ends the stream with DEADLINE_EXCEEDED |
| `Delivery.QueuedComesFirst` | src/server_streaming_call.c:268-369 | what is queued is returned without another read |
| `Delivery.ArrivedComesOut` | src/server_streaming_call.c:268-369 | a message that arrives for a waiting stream and that the limits admit is what `next` returns |
| `Delivery.SharedConnection.ReceiveUntilOver` | src/server_streaming_call.c:268-330 | the receive loop is one of the runs above, interrupted only where a read fails, delivers nothing itself, and ends only with a message, a closed stream, a completed call or a policy failure |
| `Delivery.SharedConnection.Next` | src/server_streaming_call.c:246-392 | returns the next message of the wire in order, or the final status, which gives the stream up; a final OK means everything was delivered |
| `Output.RequestSource.Read` | src/transport.c:2044-2070 | the read callback announces what is left up to the limit and EOF exactly when that reaches the end |
| `Output.Connection.WriteAll` | src/transport.c:1554-1565 | whatever parts the socket takes, the wire gains a front part of the data, and all of it unless the socket fails |
| `Output.Connection.FlushBuffer` | src/transport.c:1567-1577 | success empties the buffer onto the wire, failure leaves the wire a front part of what was emitted |
| `Output.Connection.BufferOrWrite` | src/transport.c:1579-1611 | wire plus buffer are what the session emitted, in order |
| `Output.Connection.SendData` | src/transport.c:2082-2136 | emits the frame header and exactly the announced octets of the request, without copying; the exhausted-source error is not reached |
| `Output.Connection.SendFrame` | src/transport.c:2044-2136 | read and send callbacks together emit the next frame; payloads concatenate to the body so far, with EOF on the last frame only |
| `Output.Connection.SendPending` | src/transport.c:1968-2033 | success leaves on the wire exactly the octets of everything the session had to send, in order; only a failing socket or session makes it fail, which marks the connection dead with a front part handed over |
| `Output.Connection.Drive` | src/transport.c:1944-2033 | over every sequence of sends a live connection's wire is exactly what the session had to send, a dead one's a front part of it, and after death nothing is written |
| `Output.FinishedBodyDecodes` | src/transport.c:2044-2146 | a peer that decodes the DATA payloads of a finished request gets exactly the request |
| `Output.CopyRequest` | src/diagnostic/bench.c:721-746 | the copying form produces the same octets and offsets |
| `Output.FillVectors` | src/diagnostic/bench.c:516-547 | the vectors hold the frame header and then the same octets of the request |
| `Output.ConsumeVectors` | src/diagnostic/bench.c:610-627 | after a partial write the vectors hold exactly what is left |
| `Output.WriteVectored` | src/diagnostic/bench.c:549-601 | under every pattern of partial writes the wire gains frame header and payload, or on failure a front part of them with the offset unmoved |
| `ActiveStreams.H2Connection.Register` | src/transport.c:108-124 | puts a call in front of the list with exact counts, or changes nothing |
| `ActiveStreams.H2Connection.Unregister` | src/transport.c:138-171 | splices one call out, keeps the order of the others and the owner count |
| `ActiveStreams.H2Connection.OnGoaway` | src/transport.c:2288-2306 | walking the list while it shrinks refuses, closes and removes exactly the streams above the last id, keeps the others in order, makes the connection unusable (section 6.8 of RFC 9113) |
| `ActiveStreams.AdmittedExactly` | src/transport.c:2292-2304 | a call remains if and only if it was listed and its id is not above the last one |
| `ActiveStreams.GracefulGoawayAdmitsAll` | src/transport.c:2292-2304 | a GOAWAY naming 2^31-1 refuses none |
| `ConnectionCache.EvictInv` | src/transport.c:1203-1229 | eviction frees the slot, destroys the connection if nobody owns it, else detaches it, and touches no other connection |
| `ConnectionCache.CloseChannelInv` | src/surface.c:566-584 | closing a channel frees its slot and no other; the connection is destroyed if unowned, else only detached and left to its owners as it is |
| `ConnectionCache.ReusableInv` | src/transport.c:1788-1815 | the slot is free afterwards or holds the usable connection that is returned; the branch for a foreign identity is never taken |
| `ConnectionCache.GetPersistentInv` | src/transport.c:1788-1842 | a lookup returns nothing or a usable, undetached connection now held under that key, and the cache never exceeds 128 entries |
| `ConnectionCache.GetPersistentExactly` | src/transport.c:1788-1842 | the cached connection is returned, and nothing changes, if and only if it is usable and busy or found alive; else a new one exactly if it could be set up at a fresh address with fewer than 128 other entries |
| `ConnectionCache.LookupTouchesOneKey` | src/transport.c:1788-1842 | no other entry changes, and an entry is replaced only after its connection had become unusable |
| `Lifecycle.OnGoawayCore` | src/transport.c:2288-2306 | GOAWAY keeps the books of all connections and calls, changes no owner count and leaves the connection draining |
| `Lifecycle.OnStreamCloseCore` | src/transport.c:2263-2278 | closing a stream keeps the books and removes the stream from the session |
| `Lifecycle.ClosedAndOffTheList` | src/transport.c:2263-2278 | the call behind a closed stream ends up closed and off the active list |
| `Effects.GoawayClosesExactly` | src/transport.c:2288-2306 | over all connections, a GOAWAY closes and unregisters exactly the active calls of its own whose stream is above the last id |
| `Effects.FailuresTakeEffect` | src/transport.c:973-990 | a reset in a callback stops the stream, or kills the connection if it fails |
| `Lifecycle.DestroyCore` | src/transport.c:233-238 | destroying what is detached and unowned leaves no pointer to it |
| `Operations.CancelStreamCore` | src/transport.c:340-379 | however far the reset gets, the session will not ask for the request of that call again |
| `Operations.ClearStreamingInv` | src/transport.c:291-313 | giving up a streaming call keeps the books, destroys a detached connection with its last owner and leaves no unusable connection in the cache |
| `Operations.DestroyStateInv` | src/transport.c:389-411 | dropping a streaming call resets an open stream first and then leaves nothing that could reach the freed call, and no unusable connection in the cache |
| `Operations.OpenStreamingInv` | src/server_streaming_call.c:42-194 | every way in which opening succeeds or fails keeps the books |
| `Operations.OpenOnInv` | src/server_streaming_call.c:68-194 | the same from the lookup on; a failed opening leaves no unusable connection in the cache |
| `Operations.InterruptInv` | src/server_streaming_call.c:268-330 | dead connection, deadline and broken socket in the receive loop keep the books |
| `Operations.InterruptCompletes` | src/server_streaming_call.c:268-330 | an interrupted receive loop leaves a completed call whose request will not be read, and a dead connection if the socket failed |
| `Operations.TerminateInv` | src/server_streaming_call.c:5-17 | a policy failure keeps the books, completes the call and silences the request |
| `Operations.ReportInv` | src/server_streaming_call.c:371-392 | reporting the final status keeps the books and leaves no unusable connection in the cache |
| `Operations.ReportLetsGo` | src/server_streaming_call.c:381-391 | reporting the final status ends the call's registration and ownership |
| `Operations.CancelLetsGo` | src/server_streaming_call.c:423-440 | a cancel of a call that is not over, on a connection that may be driven, completes it, takes it off the list and lets go of the connection |
| `Operations.OpeningOpens` | src/server_streaming_call.c:124-189 | a successful opening leaves a registered call in front of the list that owns its connection and whose stream reads its request |
| `Operations.UserCancelInv` | src/server_streaming_call.c:423-440 | a cancel by the caller keeps the books, on draining connections too |
| `Operations.UnaryAnswersExactly` | src/unary_call.c:84-280 | an attempt has a result exactly if time ran out before it, or its request was accepted and registered and the session did not reject its input |
| `Operations.UnaryOnInv` | src/unary_call.c:77-280 | the lifetime contract: after a result the connection is still there and the cache untouched; after an exception one made unusable is detached or destroyed |
| `Runs.RunInv` | src/transport.c:108-411 | the books are in order after every run of opening, driving, cancelling, dropping, unary calls and closing channels mixed with session events |
| `Runs.CountersAreExact` | src/transport.c:108-171 | in every reachable state the owner count is the number of owning calls, the active count the length of a duplicate-free list of exactly the registered calls, and registered calls own |
| `Runs.HeldUnderOneKey` | src/transport.c:240-279 | in every reachable state a live connection is detached or held under exactly one key, its own |
| `Runs.DestroyedOnceAndInTime` | src/transport.c:188-238 | a connection is destroyed at most once, nothing points at it afterwards, and none that is detached and unowned lingers |
| `Runs.OwnersKeepTheirConnection` | src/transport.c:233-325 | no operation on one call, no closing of a channel and no session event destroys the connection another call owns |
| `Runs.NoFreedRequestIsRead` | src/transport.c:2072-2081 | on a connection that may still be driven, draining ones included, no stream has a freed call as its data source or event target |
| `Runs.ConditionOnlyWorsens` | src/transport.c:847-900 | over every run, draining, death, detachment and destruction are final |
| `Runs.NeverHandedOutAgain` | src/transport.c:1788-1842 | a connection seen draining, dead or detached is returned by no later lookup of any run |
| `Runs.GoawayIsForGood` | src/transport.c:876-895 | after a GOAWAY no call is started on that connection again |
| `Runs.ClosedIsForGood` | src/transport.c:1844-1870 | a connection whose channel was closed is returned by no later lookup on any channel, and survives, unchanged but for being detached, exactly if it is owned |
| `Runs.CancelGivesUp` | src/server_streaming_call.c:423-440 | in every run, such a cancel leaves the call completed, unregistered, without its connection, its request never read again |
| `Runs.LastOwnerDestroys` | src/transport.c:233-238 | a connection once out of the cache is destroyed if and only if no call owns it any more |
| `Retry.PerformUnary` | src/wrapper_adapter.c:481-538 | at most two attempts; a second one exactly if the first was answered and is repeatable, which means refused unprocessed; after a GOAWAY on another connection; the last attempt decides the end; an unusable connection ends up evicted |
| `Retry.StreamOpenMeans` | src/server_streaming_call.c:42-194 | a stream that counts as open has a registered call that owns the connection the lookup found |
| `Retry.StreamOpenExactly` | src/server_streaming_call.c:42-194 | a start counts as an open stream exactly if it leaves a call behind, and as submitted exactly if the session gave the request a stream |
| `Retry.StreamingCall.Open` | src/wrapper_adapter.c:570-641 | submits the request exactly as far as the opening gets, once at most, on the connection the lookup finds, and not at all if the request is refused on the spot |
| `Retry.StreamingCall.Retry` | src/wrapper_adapter.c:643-647 | the second attempt takes the place of a refused first one; after a GOAWAY it is on another connection |
| `Retry.StreamingCall.NextForCall` | src/wrapper_adapter.c:649-681 | the loop ends; it gives up at most one attempt, opened by itself and refused unprocessed with nothing delivered; the result is the record of the last attempt |
| `Retry.StreamingCall.Receive` | src/wrapper_adapter.c:103-127 | over the whole life of a call, whatever the application sends in between, the request is submitted at most twice, the second time only within the first receive and after a GOAWAY on another connection |
| `Retry.StreamingCall.SkipToStatus` | src/wrapper_adapter.c:83-101 | the same for a turn of the loop that asks for the status alone |
| `ConnectionKey.CanonicalInjective` | src/surface.c:387-419 | channels that pass the checks have equal descriptions if and only if host, port, authority, verify name, credential type and the length and digest of every PEM agree |
| `ConnectionKey.ConfusedExactly` | src/surface.c:402-419 | a name shares its field with another name if and only if a NUL stands before its last character |
| `Timeout.TimeoutIsTight` | src/protocol_core.c:66-105 | for every timeout up to 99999999 hours the peer reads back the timeout rounded up by less than a unit, and no finer unit could say as much in eight digits |
| `Timeout.Monotone` | src/protocol_core.c:71-105 | longer timeouts are never rendered shorter, also in the clamped range |
| `Timeout.RenderedExactly` | src/protocol_core.c:71-78 | with room for ten octets there is no header exactly if the timeout is not positive |
| `RequestHeaders.Table.Grow` | src/transport.c:2483-2523 | doubles up to 264 and keeps the contents of all three arrays |
| `RequestHeaders.Table.Append` | src/transport.c:2536-2545 | appends, or drops silently exactly if 264 headers are there |
| `RequestHeaders.Table.AppendCustomValue` | src/transport.c:2689-2737 | with at most eight other headers the capacity is never in the way: the only problems are type, count over 256 and value |
| `RequestHeaders.Table.AppendCustom` | src/transport.c:2739-2772 | adds every accepted value once and in order, skips user-agent, or stops at the first problem |
| `RequestHeaders.Build` | src/server_streaming_call.c:90-122 | a request that is built holds every fixed header and every custom value exactly once and in order; it is refused if and only if some key or value is not acceptable |
| `RequestHeaders.ItemAt` | src/transport.c:2748-2769 | every item of every key that may be sent has its own place, in order, behind all items of the entries before |
| `RequestHeaders.PseudoAre` | src/server_streaming_call.c:94-97 | the pseudo-headers are POST, https exactly under TLS, the connection's authority and the method's path |
| `RequestHeaders.FixedAre` | src/server_streaming_call.c:94-117 | behind them stand content type, te, exactly under a deadline a timeout the peer reads back, and the user agent |
| `RequestHeaders.CustomNames` | src/transport.c:2711-2735 | every header made of the metadata carries its own key |
| `RequestHeaders.CustomKeepsToItself` | src/transport.c:2575-2640 | no key the application may use names a fixed header or a pseudo-header, so none is repeated or replaced (section 8.3 of RFC 9113) |
| `RequestHeaders.TooManyExactly` | src/transport.c:2699-2702 | among acceptable values only a number above 256 is refused |

## Left out

- nghttp2, HPACK, flow control, sockets, TLS, DNS and poll: only their possible outcomes appear, as events, write results and lookups.
- Connections, calls and the cache over whole runs are modelled on values with an explicit heap, since Dafny's heap has no deallocation; updating those structs in place is modelled for the active list, the decoder, the buffer, the request source and the header table only.
- A connection is not modelled as moving bytes and owning calls at once: `Output` and `Delivery` speak of one connection, `Runs` of all of them.
- Memory reuse: a destroyed connection's address is never handed out again in the model.
- Process shutdown, which destroys the cache whoever owns what.
- Tracing, diagnostic records, timing counters, exceptions and reference counts of PHP values.
- The text of status details, percent-decoding of grpc-message and base64 of `-bin` metadata values; the encoder is a parameter of `RequestHeaders.Build`.
- Padding of DATA frames, overflow in `atoi`, and the 32-bit check on the size of a string.
- The lazy allocation of the write buffer and the choice of its capacity, which is a parameter.
- Clamps of configuration values, checks of paths, ports and authorities, and deadline arithmetic.
- SHA-256: digests are given as hex texts; names longer than an `int` can count are not considered.
- The body that the buffering data path collects, as evidence that a response has started.
- Retry.PerformUnary: speaks of one call of the loop; an application that starts the batch again after an exception starts a new call in this model.
