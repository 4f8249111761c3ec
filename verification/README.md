# Proofs about the SkyAPM PHP agent

The agent is a PHP extension that records what a request does as a segment of
spans, prints the segment as JSON, and passes it to a reporter process, which
parses it and sends it to the collector. This project models the parts of the
agent whose correctness is not visible in any single function, and proves what
they promise for every input, every run and every interleaving. It needs nothing
but Dafny 4.11: `dafny verify dfyconfig.toml`.

## The parts

**The way of a segment** (`IpcQueue`, `CountedChannel`, `Startup`, `Pipeline`).
Forked workers push printed segments into a channel whose length is guarded by
one shared atomic counter. The reporter pops them, parses them, forwards them into a
second, bounded channel with a counter of its own, and drains that in batches.
Each component is a transition system with one step per atomic operation, for any
number of processes. `Pipeline` composes the three components and keeps a history of
what was pushed, what became of it and what was collected. The functions
themselves are methods on classes, proved to be uninterrupted runs of these systems.

- The shared counter is *not* the queue length. A worker that was admitted and
  then finds the sender lock busy, or a channel error, returns without giving its
  place back, and so does a subtraction that comes while the counter stands above
  its limit. Call each such step a leak. Then `min(counter, 4096)` is the messages
  in flight plus the leaks of the run (`AccountingLaw`); the counter is exact
  exactly without leaks (`CounterExactIffNoLeak`); and a message can still be sent
  at some time exactly while fewer than 4096 leaks have happened
  (`DeadIffAllSlotsLeaked`, with a run that reaches the limit in
  `FailedSendsCanCloseTheQueue`).
- One `fetch_min` takes back all refusals before it, so the counter stays exact as long as
  one comes before the next subtraction (`OneFetchMinIsEnough`).
- What does hold in every run: the queue stays within 4096 and the counter never
  wraps around; the batch `recv_all` returns is the front of the channel and no
  receive in it waits; what is collected is a subsequence, in order and without
  repetition, of what was pushed; a segment is dropped for lack of room only while
  5000 others stand in the channel; nothing is collected before a login the collector
  accepted; and from every reachable state some continuation logs in and collects
  everything that was kept (`DeliveryStaysPossible`).

**The printed segment** (`Json`, `JsonRoundTrip`, `JsonReading`, `SegmentJson`,
`SegmentRoundTrip`, `GrowableArray`, `SegmentPrinter`). The hand-written printers
append to a string buffer in place and are proved equal to the compact text of a
JSON value. An independent parser of the grammar of RFC 8259 (with white space,
escape sequences and surrogate pairs; numbers are integers) followed by a
typed reading of the fields stands for what the reporter does to the text. No printer escapes anything, so
the round trip does not hold for every segment: it holds *if and only if* no string
in the segment holds a quotation mark, a reverse solidus or a control character,
the characters section 7 of RFC 8259 wants escaped (`SegmentRoundTripIffPlain`).
Escaping is all that is missing: an escaped string is read back whatever it holds
(`ParseStringOfEscaped`).
The arrays behind the printers hold what was added in order, and
doubling moves at most two slots for each item.

**The sw8 header** (`Base64`, `CrossProcess`). The decoder keeps a buffer of four
positions and cuts sums of shifts to eight bits; it is proved equal to a recursive
specification, and that to undo the encoding of section 4 of RFC 4648. The header
parser splits at dashes, skips empty tokens and reads numbers with `strtol`. A
header written by the encoder comes back *if and only if* no string in it is empty
and the span id is not negative, the least int excepted (`HeaderRoundTripIff`).

**The curl header cache** (`CurlCache`). The plugin keeps a copy of the header
array of a handle and sets it again before every recorded request. For
every call there is an exact condition for keeping the copy in step with libcurl
(`StepKeepsStepIff`), and a call that does not meet it can be told from outside
(`LostStepIsVisible`). For whole programs, the requests are those of a run without
the plugin *if and only if* at each request the list left to be sent is the one the
original calls leave (`RunIsTransparentIff`); when the private option is left alone,
*if and only if* at each recorded request the cache entry of the handle restores
that list (`RunIsTransparentIffRestored`). Both conditions are folds over the calls
on one handle. A careful program, one that gives header arrays with the plugin on,
has them accepted, and closes a handle before it goes, meets them, with PHP 7 and
with PHP 8 (`CarefulProgramIsTransparent`). They fail, for instance, when
curl_setopt_array stops at a refused option in front of the headers
(`RefusedHeadersAreSent`), or when PHP 7 is given the headers as an object
(`UncachedHeadersAreLost`).

**The rate limiter** (`RateLimiter`). A fixed window that realigns itself when it
is asked after its end. Over every history of calls it admits at most `rate`
calls strictly inside an aligned window and at most twice that in any window-long
interval, not counting calls on the boundary, which are all admitted
(`BoundaryCallsAreAllAdmitted`).

## Model

| member | source | states |
|---|---|---|
| IpcQueue.CounterDoesNotWrap | src/reporter/ipc.rs:47-74 | in every state the invariant allows, an addition or subtraction on the 64-bit counter moves it by exactly one, so `fetch_sub` never underflows |
| IpcQueue.CounterIsUsize | src/reporter/ipc.rs:29-31 | from any state the counter stays a 64-bit number, wrapping past its ends |
| IpcQueue.StepKeepsValid | src/reporter/ipc.rs:45-77 | every atomic step of every worker and of the receiver keeps the invariant, and changes the surplus of the counter over the messages in flight only when it is a leak, then by one |
| IpcQueue.RunKeepsValid | src/reporter/ipc.rs:45-77 | the same over every interleaving: the surplus grows by exactly the number of leaks |
| IpcQueue.QueueStaysBounded | src/reporter/ipc.rs:45-77 | queued, admitted and popped-but-not-subtracted messages together never exceed the counter nor 4096; the counter exceeds 4096 by at most the refused workers still to clamp it |
| IpcQueue.AccountingLaw | src/reporter/ipc.rs:47-74 | the counter clamped to 4096 is the messages in flight plus the failed sends and the subtractions done above the limit |
| IpcQueue.CounterExactIffNoLeak | src/reporter/ipc.rs:49-76 | with nobody inside `send` or `receive`, the counter is the queue length plus the leaks, so it is the queue length exactly if there were none |
| IpcQueue.UndisturbedRunsDoNotLeak | src/reporter/ipc.rs:49-60 | a run in which no admitted send fails and no subtraction falls between a refusal and its `fetch_min` has no leak |
| IpcQueue.UndisturbedRunsAreExact | src/reporter/ipc.rs:49-60 | after such a run the counter is the queue length, however many refusals overlapped |
| IpcQueue.FetchMinClamps | src/reporter/ipc.rs:50-52 | `fetch_min` takes a counter above 4096 to 4096 at once and leaves another alone |
| IpcQueue.ClampedUntilNextAdd | src/reporter/ipc.rs:47-74 | in every run the counter stays at most 4096 from a `fetch_min` to the next addition, so no subtraction in between leaks |
| IpcQueue.HighCounterHasRefusal | src/reporter/ipc.rs:47-52 | a counter above 4096 has a refusal behind it that no `fetch_min` has followed |
| IpcQueue.OneFetchMinIsEnough | src/reporter/ipc.rs:47-76 | without failed sends, one `fetch_min` by any worker between each refusal and the next subtraction keeps the run free of leaks and its final counter exact |
| IpcQueue.WorkerStandsWhereItsCallPutIt | src/reporter/ipc.rs:47-53 | in every run a worker inside `send` was admitted or refused by the counter its own addition found, below 4096 or not, and holds the message it was called with |
| IpcQueue.PushedIsWhatWasSent | src/reporter/ipc.rs:60 | a worker pushes the message of its own call, whatever the others do meanwhile |
| IpcQueue.FirstInFirstOut | src/reporter/ipc.rs:60-72 | what was popped followed by the queue is the old queue followed by what was pushed |
| IpcQueue.FullSlackBlocksEveryPush | src/reporter/ipc.rs:47-60 | once all 4096 places have leaked, no continuation of any kind pushes a message |
| IpcQueue.SlackLeavesRoom | src/reporter/ipc.rs:47-76 | with fewer leaks, from every reachable state some continuation pushes a message |
| IpcQueue.DeadIffAllSlotsLeaked | src/reporter/ipc.rs:45-77 | leaks never exceed 4096, and the queue can be used again exactly while they are fewer |
| IpcQueue.FailedSendsLeak | src/reporter/ipc.rs:55-59 | n sends that find the lock busy raise the counter by n for good |
| IpcQueue.FailedSendsCanCloseTheQueue | src/reporter/ipc.rs:47-60 | a concrete run: 4096 failed sends leave an empty queue that refuses every worker for ever |
| IpcQueue.MessageQueue.constructor | src/reporter/ipc.rs:33-43 | an empty queue with a zero counter |
| IpcQueue.MessageQueue.Send | src/reporter/ipc.rs:45-62 | a call without interruption is the two-step run of one worker: refused from 4096 on, leaving exactly 4096, failed with the counter left up, or pushed at the end |
| IpcQueue.MessageQueue.Receive | src/reporter/ipc.rs:64-77 | takes the front message and then one off the counter; a failure changes nothing |
| CountedChannel.StepKeepsValid | src/reporter/grpc.rs:71-101 | every step of every producer and of the consumer keeps the counting invariant |
| CountedChannel.CountedChannelLaw | src/reporter/grpc.rs:71-100 | counter plus producers that have pushed and not counted is channel length plus the item in hand; the counter stays in 0..capacity+1 |
| CountedChannel.ReceiveNeverWaits | src/reporter/grpc.rs:94-98 | while receives are outstanding the channel holds an item for each, so `recv` finds one at once and the error for a closed channel cannot come up in the loop |
| CountedChannel.ItemsAreConserved | src/reporter/grpc.rs:94-98 | during one call, the batch followed by the channel is what it was at the start followed by what was pushed meanwhile |
| CountedChannel.BatchIsFrontOfChannel | src/reporter/grpc.rs:88-100 | the returned batch is exactly the first `count` items the channel held when `count` was read, whatever the producers do meanwhile |
| CountedChannel.RefusedOnlyWhenFull | src/reporter/grpc.rs:73-75 | in every interleaving a refused message finds `capacity` items in the channel, and a refusal changes nothing |
| CountedChannel.PushOrRefusal | src/reporter/grpc.rs:72-78 | below capacity a producer can push and not be refused, at capacity the other way round |
| CountedChannel.Channel.constructor | src/reporter/grpc.rs:357-367 | an empty channel of the given capacity with a zero counter |
| CountedChannel.Channel.TrySend | src/reporter/grpc.rs:72-78 | succeeds exactly below capacity, and is the uninterrupted run of one producer: push then count, or refusal |
| CountedChannel.Channel.RecvAll | src/reporter/grpc.rs:88-100 | returns the whole channel in order and leaves it empty with a zero counter, as the uninterrupted run of the consumer does |
| Startup.StepKeepsValid | src/reporter/grpc.rs:178-329 | every step of the four tasks keeps the cells, the tasks and the event log consistent |
| Startup.RegisterImpliesLoggedIn | src/reporter/grpc.rs:225-242 | with the register cell set, the connection is stored and the log starts with storing it and a login on it |
| Startup.TrafficOnlyAfterLogin | src/reporter/grpc.rs:258-329 | every ping and every collect in the log comes after connection, login and registration, in this order, and uses the stored connection |
| Startup.RegisterComesFromLogin | src/reporter/grpc.rs:225-242 | if the register cell is set, the run took the steps of storing a connection, a login the collector accepted, and setting the cell, in this order |
| Startup.TrafficComesFromLogin | src/reporter/grpc.rs:258-329 | the same three steps come before every ping and every round of the sender |
| Startup.StoredConnectionWasMade | src/reporter/grpc.rs:178-192 | the stored connection is the one the connect attempt made |
| Startup.LogIsWhatHappened | src/reporter/grpc.rs:178-329 | the log holds a `LoginOk` for each accepted login and for nothing else, and likewise the other events |
| Startup.FailureIsRetried | src/reporter/grpc.rs:184-189 | a failed connection or login leaves both cells alone and the task tries again |
| Startup.AttemptsMayFail | src/reporter/grpc.rs:232-241 | every attempt to connect or log in may succeed or fail |
| Startup.RoundsStartOver | src/reporter/grpc.rs:258-325 | after a ping or a round the task reads both cells again, and a round without items calls nobody |
| Startup.ServingStaysPossible | src/reporter/grpc.rs:178-329 | from every reachable state, whatever failed before, some continuation logs in and serves |
| Startup.CellsAreWrittenOnce | src/reporter/grpc.rs:103-104 | each of the two once-cells is set at most once in any run |
| Pipeline.StepKeepsCoordinated | src/reporter/grpc.rs:291-340 | every step keeps the invariants of all components and the receiving and sending tasks where the components expect them |
| Pipeline.RunKeepsValid | src/reporter/grpc.rs:291-346 | over every run, every message and segment stays accounted for, in order |
| Pipeline.EndToEndLaw | src/reporter/grpc.rs:291-346 | pushed messages are the decided ones, at most one in transit, and the queued ones; kept segments are the batches, the partly drained batch and the channel; a dropped message is empty, does not parse, or parses and finds no room, the last only behind 5000 kept ones |
| Pipeline.DroppedOnlyWhenFull | src/reporter/grpc.rs:299-302 | in every run a segment is dropped for lack of room only while 5000 stand in the channel |
| Pipeline.OneDecisionIsOpen | src/reporter/grpc.rs:291-305 | a received message can be dropped as empty, as unparsable, for lack of room, or forwarded, and exactly one of these at a time |
| Pipeline.NoDropWithinCapacity | src/reporter/grpc.rs:155-160 | with at most 5000 messages pushed none is dropped for lack of room |
| Pipeline.CallsFromTheStart | src/reporter/grpc.rs:331-346 | the collector is called once for each batch and never with an empty one |
| Pipeline.DeliveryStaysPossible | src/reporter/grpc.rs:283-329 | from every reachable state some continuation decides every pushed message and collects every kept segment |
| Pipeline.DeliveredInOrderAtMostOnce | src/reporter/grpc.rs:291-346 | the collected segments are parsed from strictly increasing positions of the pushed messages, so delivery is in order and no message is in two batches |
| Pipeline.NothingCollectedBeforeLogin | src/reporter/grpc.rs:307-340 | nothing is taken out of the channel before connection, login and registration are in the log |
| Pipeline.DrainingComesFromLogin | src/reporter/grpc.rs:307-340 | reading the counter, taking an item and collecting come behind the steps of storing a connection, an accepted login and the registration |
| Pipeline.BothQueuesStayBounded | src/reporter/grpc.rs:154-160 | in the composed system the queue stays within 4096, the channel within 5000 and outstanding receives within the channel |
| Pipeline.PrintedSegmentsArrive | src/reporter/grpc.rs:291-346 | when workers send printed segments with plain strings, the collector gets sent segments unchanged, in order and none twice, and a prefix of them while the channel was never full |
| JsonRoundTrip.ParseNumberOfText | src/sky_util_php.c:49-52 | a printed decimal integer of any sign is read back exactly, up to the character behind it |
| JsonRoundTrip.ParseText | src/sky_util_php.c:32-83 | the parser run on any printed plain value followed by any text consumes exactly the value and leaves the text |
| JsonRoundTrip.ParseItemsText | src/sky_core_span.c:102-115 | a printed list with commas between its items is read back item by item, for one and for many items |
| JsonRoundTrip.ParseMembersText | src/sky_util_php.c:32-83 | printed members with commas between them are read back member by member |
| JsonRoundTrip.ParsedValueIsLong | src/reporter/grpc.rs:300 | whatever text the parser accepts is at least as long as the compact print of its value, and longer if a string in it needs escaping |
| JsonRoundTrip.ParseAllIffPlain | src/sky_util_php.c:59-64 | a value survives unescaped printing exactly if none of its strings needs escaping |
| JsonReading.PlainIff | src/sky_util_php.c:59-64 | the plain strings are those without quotation mark, reverse solidus and characters below U+0020 |
| JsonReading.CompactTextOfEveryKind | src/sky_util_php.c:32-83 | the printed form of every kind of value, written out |
| JsonReading.SpaceBeforeValue | src/reporter/grpc.rs:300 | the four white space characters of RFC 8259 in front of a value do not matter |
| JsonReading.NothingBehindTheValue | src/reporter/grpc.rs:300 | a value is the whole text exactly if only white space follows |
| JsonReading.ItemsNeedSeparators | src/sky_core_span.c:102-114 | an item must be followed by a comma and another item or by the bracket |
| JsonReading.MembersNeedSeparators | src/sky_core_span.c:131-148 | a member must be followed by a comma and another member or by the brace |
| JsonReading.ParseUnicodeEscape | src/reporter/grpc.rs:300 | every character is read back from its hexadecimal escape, above the basic plane from a surrogate pair |
| JsonReading.ParseStringOfEscaped | src/sky_util_php.c:59-64 | every string, whatever it holds, would be read back if it were printed with the escapes of section 7 of RFC 8259 |
| SegmentRoundTrip.FieldsIffOnce | src/reporter/grpc.rs:300 | an object is read exactly if it has each wanted field once, in any order and among any others, and each value goes to the field it is named for |
| SegmentRoundTrip.FieldsOfRecord | src/sky_core_segment.c:108-133 | reading the named fields of a printed record gives the values in order |
| SegmentRoundTrip.ReadSegmentOfValue | src/reporter/grpc.rs:300 | the typed reading of a segment's value gives the segment: ids, spans in order with tags and logs, service, instance, flag |
| SegmentRoundTrip.ReadSegmentCovers | src/reporter/grpc.rs:300 | a segment read from any value prints no longer than that value, and plain if that is plain |
| SegmentRoundTrip.PlainSegmentValue | src/sky_core_segment.c:92-144 | the value of a segment is plain exactly if all the segment's strings are |
| SegmentRoundTrip.ParsePrintedSpan | src/sky_core_span.c:100-161 | the parser run on a printed span followed by any text consumes exactly the span, and reading gives the span |
| SegmentRoundTrip.SegmentRoundTripIffPlain | src/sky_core_segment.c:92-144 | the reporter reads a printed segment back exactly if no string in it needs escaping |
| SegmentRoundTrip.PrinterIsInjective | src/sky_core_segment.c:92-144 | two plain segments with the same text are the same segment |
| SegmentRoundTrip.QuotationMarkIsLost | src/sky_core_segment.c:122-124 | a service name with a quotation mark makes the printed segment unreadable or another one |
| GrowableArray.GrowableArray.Add | src/sky_core_segment.c:58-77 | appends in order, doubling when one slot is free; without memory nothing changes; the slots ever moved stay within twice the size |
| GrowableArray.GrowableArray.AddAll | src/sky_core_span.c:85-98 | any run of adds appends the items in order, with at most twice the size moved in all |
| SegmentPrinter.SmartString.JsonRawEx | src/sky_util_php.c:37-40 | appends one already printed member to the open object |
| SegmentPrinter.SmartString.JsonIntEx | src/sky_util_php.c:54-57 | appends one integer member to the open object |
| SegmentPrinter.SmartString.JsonStrEx | src/sky_util_php.c:66-69 | appends one string member to the open object |
| SegmentPrinter.SmartString.JsonBoolEx | src/sky_util_php.c:80-83 | appends one boolean member to the open object |
| SegmentPrinter.SmartString.JsonBool | src/sky_util_php.c:71-78 | appends a boolean member without a comma |
| SegmentPrinter.ListSoFarStep | src/sky_core_span.c:102-114 | one round of a printing loop appends one item, with a comma exactly if another follows, and the closed list is the text of the array |
| SegmentPrinter.ObjectText | src/sky_core_span.c:131-149 | fields appended with a comma each, then one without, make the text of the object |
| SegmentPrinter.SpanMembersAre | src/sky_core_span.c:133-147 | the fourteen fields of a printed span by name, each with its own value |
| SegmentPrinter.SegmentMembersByName | src/sky_core_segment.c:108-131 | the six fields of a printed segment by name, each with its own value |
| SegmentPrinter.TagToJson | src/sky_core_tag.c:34-47 | prints the text of the tag's object |
| SegmentPrinter.LogToJson | src/sky_core_log.c:60-82 | prints the text of the log's object, for any number of entries |
| SegmentPrinter.LogRecord.constructor | src/sky_core_log.c:25-35 | a log with the given time and no data |
| SegmentPrinter.LogRecord.AddData | src/sky_core_log.c:37-54 | appends one entry, or nothing without memory; at most twice the size is ever moved |
| SegmentPrinter.SpanRecord.constructor | src/sky_core_span.c:27-51 | a span with the given type, layer, component and start time, no error, no tags and no logs |
| SegmentPrinter.SpanRecord.AddTag | src/sky_core_span.c:85-98 | appends one tag, or nothing without memory; at most twice the size is ever moved |
| SegmentPrinter.SpanRecord.TagsToJson | src/sky_core_span.c:102-115 | prints the tag list |
| SegmentPrinter.SpanRecord.LogsToJson | src/sky_core_span.c:117-128 | prints the log list |
| SegmentPrinter.SpanRecord.ToJson | src/sky_core_span.c:100-161 | prints the object with the fourteen named fields of the span in order, so the text the round trip is about |
| SegmentPrinter.SegmentRecord.constructor | src/sky_core_segment.c:28-49 | a segment with its own id, the trace id of the header or else its own id, no spans and the flag down |
| SegmentPrinter.SegmentRecord.AddSpan | src/sky_core_segment.c:51-78 | appends the span and numbers it: number equals index, the first has parent -1, the others 0; at most twice the size is ever moved |
| SegmentPrinter.SegmentRecord.AddSpans | src/sky_core_segment.c:51-78 | any run of n adds of distinct spans to a new segment leaves exactly those spans in order, numbered by index under the first, with at most 2n slots moved |
| SegmentPrinter.SegmentRecord.SpansToJson | src/sky_core_segment.c:93-106 | prints the span list |
| SegmentPrinter.SegmentRecord.ToJson | src/sky_core_segment.c:92-144 | prints the object with the six named fields of the segment in order, so the text the round trip is about |
| Base64.SearchFindsIndex | src/sky_util_base64.c:34-36 | a search of the table from its start stops at the position of the character, or at 64 |
| Base64.SymbolsAreTheTable | src/sky_util_base64.c:22-25 | the sixty-four symbols in the order of the table |
| Base64.DecodedExamples | src/sky_util_base64.c:27-48 | the examples of section 10 of RFC 4648 up to three bytes, for each padding |
| Base64.DecodedLongerExample | src/sky_util_base64.c:27-48 | the six-byte example of section 10 of RFC 4648 |
| Base64.EncodedExamples | src/sky_util_base64.c:22-25 | the encodings of the same examples, padding included |
| Base64.StrangeCharactersCountAs64 | src/sky_util_base64.c:35-42 | characters outside the table are not refused but spill 64 into their neighbours or leave a byte out |
| Base64.Decode | src/sky_util_base64.c:27-48 | the loop over characters fills at most 3/4 of the length and leaves what the four-at-a-time specification gives |
| Base64.WriteGroup | src/sky_util_base64.c:38-42 | writes the one, two or three bytes of a group behind what is there |
| Base64.TailIsIgnored | src/sky_util_base64.c:33-45 | up to three characters after the last whole group add nothing |
| Base64.DecodedAppend | src/sky_util_base64.c:33-45 | text made of whole groups decodes group by group |
| Base64.ShiftsJoinBits | src/sky_util_base64.c:38-42 | shifting, adding and cutting to eight bits is putting the four 6-bit groups of 24 bits back side by side |
| Base64.DecodeUndoesGroup | src/sky_util_base64.c:37-44 | decoding undoes the encoding of one, two or three bytes, padding included |
| Base64.DecodeUndoesEncode | src/sky_util_base64.c:27-48 | decoding undoes the standard encoding of every byte sequence |
| Base64.EncodedHasNoDash | src/sky_util_base64.c:22-25 | encoded text holds no dash, and is empty only for the empty sequence |
| CrossProcess.FillBag | src/sky_core_cross_process.c:32-39 | the `strtok` loop collects the tokens in order |
| CrossProcess.New | src/sky_core_cross_process.c:27-54 | the fields are those of the token list, or all unset without a header or with fewer than eight tokens |
| CrossProcess.SegmentTraceId | src/sky_core_segment.c:41-45 | a new segment takes the decoded trace id of the header, and its own id if the header gave none |
| CrossProcess.JoinOfSplit | src/sky_core_cross_process.c:32-39 | every text is the parts between its dashes joined again |
| CrossProcess.SetIffEightFields | src/sky_core_cross_process.c:32-50 | for every header: trace id and parent segment id are set together, exactly if at least eight of the parts between its dashes are not empty; otherwise nothing is set |
| CrossProcess.EachPartToItsField | src/sky_core_cross_process.c:41-50 | for every header, each of the first eight non-empty parts goes to its own field, the first and fourth as numbers, the others decoded |
| CrossProcess.StrToLReads | src/sky_core_cross_process.c:42-45 | a number behind white space and a sign is read whatever follows its digits, and stops at the limits of a long |
| CrossProcess.StrToLOfNoNumber | src/sky_core_cross_process.c:42-45 | a part that is no number counts as zero |
| CrossProcess.HeaderText | src/sky_core_cross_process.c:64-86 | the encoded header written out: eight fields in order with dashes between them |
| CrossProcess.TokensOfJoin | src/sky_core_cross_process.c:33-39 | the tokens of fields joined with dashes are the fields without the empty ones |
| CrossProcess.HeaderTokens | src/sky_core_cross_process.c:64-86 | the tokens of an encoded header are its non-empty fields, a negative span id without its sign |
| CrossProcess.ParsedEncoding | src/sky_core_cross_process.c:27-86 | what the parser makes of every encoded header: all fields with the sign of the span id lost, or nothing if a string was empty |
| CrossProcess.HeaderRoundTripIff | src/sky_core_cross_process.c:27-86 | all eight fields come back exactly if no string is empty and the span id is not negative or is the least int |
| CrossProcess.TraceContinuesIff | src/sky_core_segment.c:41-45 | an encoded header carries its trace id over exactly if no string in it was empty |
| CrossProcess.EmptyEndpointLosesEverything | src/sky_core_cross_process.c:41-50 | an encoded header with an empty endpoint leaves every field unset |
| CurlCache.Plugin.SetoptHandler | src/sky_plugin_curl.c:55-90 | off: the original call; on: the private option becomes the header option, a header array (but not an object) is cached, then the original call |
| CurlCache.Plugin.SetoptArrayHandler | src/sky_plugin_curl.c:92-125 | on: whatever stands under the header option is cached before the original call, which may stop before it |
| CurlCache.Plugin.ExecHandler | src/sky_plugin_curl.c:127-225 | a recorded request first sets the cached value, or an empty array, through the hooked setopt; the request sends the resulting list |
| CurlCache.Plugin.CloseHandler | src/sky_plugin_curl.c:270-299 | on: the cache entry goes, then the original call |
| CurlCache.RecordableIff | src/sky_plugin_curl.c:156-165 | a request is recorded for an http:// or https:// prefix and a scheme and host found by the parser |
| CurlCache.ExecSetsHeadersIffRecorded | src/sky_plugin_curl.c:127-223 | a recorded request sets the cached headers, or none; any other touches neither libcurl nor the cache |
| CurlCache.SetoptByOption | src/sky_plugin_curl.c:80-89 | option 10023 and an array fill the cache, option 9923 reaches libcurl past it, every other option leaves both alone |
| CurlCache.SetoptArrayByPosition | src/sky_plugin_curl.c:116-124 | headers at any position of the array are cached whatever they are, and reach libcurl exactly if every option in front of them is accepted |
| CurlCache.SetoptArrayWithoutHeaders | src/sky_plugin_curl.c:116-124 | without the header option nothing changes |
| CurlCache.CloseForgets | src/sky_plugin_curl.c:293-298 | a close with the plugin on forgets the entry of its handle and of no other |
| CurlCache.OriginSetoptArraySets | src/sky_plugin_curl.c:116-124 | the original curl_setopt_array sets the headers exactly if it reaches the header option with an array or an object it takes |
| CurlCache.ExecIsTransparentIff | src/sky_plugin_curl.c:167-225 | a recorded request sends what libcurl held exactly if the cache entry restores it |
| CurlCache.StepFollowsOriginIff | src/sky_plugin_curl.c:55-299 | from a cache in step, a hooked call does to libcurl what the original does exactly unless it gives a handle other headers through the private option |
| CurlCache.StepKeepsStepIff | src/sky_plugin_curl.c:55-299 | for every call, the exact condition for the cache to be in step afterwards, values given as objects included |
| CurlCache.LostStepIsVisible | src/sky_plugin_curl.c:55-299 | after one call that does not meet it, a request on the handle, or on a new one with its number, sends other headers |
| CurlCache.FoldsAreRuns | src/sky_plugin_curl.c:55-299 | for any number of handles, the entry and the list of a handle depend only on the calls on that handle, as the folds compute them |
| CurlCache.RunIsTransparent | src/sky_plugin_curl.c:55-299 | from any state, a run whose recorded requests each find their handle in step, and whose private option gives no other headers, leaves libcurl and sends headers as without the plugin |
| CurlCache.KeptStepIsTransparent | src/sky_plugin_curl.c:55-299 | so does every run that starts in step and whose calls all meet the per-call condition, and it ends in step |
| CurlCache.RunIsTransparentIff | src/sky_plugin_curl.c:55-299 | for every program, all requests are those without the plugin exactly if at each one the calls so far on its handle leave the list to be sent that the original calls leave |
| CurlCache.RunIsTransparentIffRestored | src/sky_plugin_curl.c:80-88 | for every program that leaves the private option alone, exactly if at each recorded request the cache entry restores the list the original calls leave |
| CurlCache.CarefulProgramIsTransparent | src/sky_plugin_curl.c:55-299 | with header arrays given with the plugin on and accepted, no private option, and close (freeing or not) before a handle goes, the cache entry of every handle is the list last given since it was opened, and all requests are unchanged |
| CurlCache.ClosedHandleMayComeAgain | src/sky_plugin_curl.c:281-298 | after every careful program, a PHP 8 close that frees nothing, the handle going and its number coming back are careful too, and the new handle has no cache entry |
| CurlCache.RefusedHeadersAreSent | src/sky_plugin_curl.c:116-124 | a header array behind a refused option is not applied by PHP but sent by the next recorded request |
| CurlCache.UncachedHeadersAreLost | src/sky_plugin_curl.c:59-88 | headers given while the plugin is off, or with the plugin on as an object that PHP 7 takes, are replaced by none in the next recorded request |
| RateLimiter.FixedWindowRateLimiter.constructor | src/sky_rate_limit.cc:25-33 | a window of at least one second, starting now, with nothing counted |
| RateLimiter.FixedWindowRateLimiter.Validate | src/sky_rate_limit.cc:35-63 | the new state and the answer are those of the step function the bounds below are about; below a rate of one the answer is always yes and nothing changes |
| RateLimiter.ResetRealigns | src/sky_rate_limit.cc:47-50 | a reset moves the start by whole windows, to the one that contains the call |
| RateLimiter.BetweenCalls | src/sky_rate_limit.cc:40-55 | between sequential calls the reset lock is free and the start is the first one plus whole windows, not in the future |
| RateLimiter.WindowFollowsCalls | src/sky_rate_limit.cc:43-55 | in every history a call behind the end of the window moves it to the aligned window that contains the call, unless the exchange fails, and no other call does |
| RateLimiter.UnlimitedAdmitsEverything | src/sky_rate_limit.cc:36-38 | with a rate below one, the default of -1 included, every call of every history is admitted and the limiter never changes |
| RateLimiter.CountIsCharged | src/sky_rate_limit.cc:52-57 | the counter is the number of calls charged to the current window |
| RateLimiter.RefusedIff | src/sky_rate_limit.cc:57-60 | a call is refused exactly if it falls before the end of its window and at least `rate` earlier calls were charged to it |
| RateLimiter.QuotaBound | src/sky_rate_limit.cc:35-63 | at every point of a history a part of a window has admitted at most what its quota allows, and one more per spurious failure |
| RateLimiter.AlignedWindowBound | src/sky_rate_limit.cc:35-63 | strictly inside one aligned window at most `rate` calls are admitted, and one more per spurious failure there |
| RateLimiter.SlidingWindowBound | src/sky_rate_limit.cc:35-63 | in every interval of one window length at most twice `rate`, off the boundary it contains |
| RateLimiter.BoundaryCallsAreAllAdmitted | src/sky_rate_limit.cc:43-57 | any number of calls exactly at the end of a window is admitted, so boundaries cannot be counted in the bounds |
| RateLimiter.TwiceTheRateIsReached | src/sky_rate_limit.cc:35-63 | a concrete history that reaches the factor two |

## Left out

- The transport: the IPC channel, tokio's channel and gRPC are first-in first-out queues or outcomes of a step; a busy lock, a channel error, an unreadable message and a failed login or collect can happen at any step that has them. Getters of cells that were never initialised are left out.
- Liveness: that a task is scheduled at all, and how long a blocking receive waits.
- IpcQueue.MessageQueue.Receive: is stated for a queue that holds a message unless a lock or channel failure comes first, because the call blocks otherwise.
- A batch whose collect fails is lost in the code; in the model it counts as handed over.
- Signals, the command line of the reporter, logging, clocks, random and UUID trace ids: inputs, or not there.
- Freeing of memory, buffers one byte too short and missing terminators (src/sky_core_cross_process.c:32, src/sky_util_base64.c:30, src/sky_core_span.c:64): the bag is a sequence of any length, a decoded field is the bytes written, strings are sequences of characters without a zero byte.
- UTF-8: JSON text is a sequence of characters; a message that is not UTF-8 is one that does not parse.
- Fractions and exponents in JSON numbers: the printers write integers only, and the typed reading would refuse them.
- The generated protobuf types: the proto files are not part of this model. As the derived reader (build.rs:18) does, the reading wants each field of the printer exactly once, in any order, and ignores other fields; that such a reader also accepts a record written as a JSON array is left out.
- Span references and peers: the printer always prints an empty reference list, the reading wants it empty, and the copy in src/sky_core_span.c:78 has length zero; a span's peer is any string. The cut of an operation name at a question mark is not modelled.
- SegmentPrinter.SpanRecord.LogsToJson: the log list of a span is a sequence, because nothing in the repository adds a log to a span.
- SegmentPrinter.SegmentRecord.AddSpan: is stated for fewer than 2^31 spans; the 32-bit overflow of the span number is not modelled.
- CrossProcess.HeaderRoundTripIff: the encoder is the one in the comment at src/sky_core_cross_process.c:64-86, the only one in the repository.
- CurlCache.Plugin.ExecHandler: the span the handler records is left out; so is the exception PHP 8 raises when the cached value is not an array, and a change the program makes to an object while the cache shares it.
- PHP functions the plugin does not hook that touch the headers of a handle, such as curl_reset and curl_copy_handle.
- RateLimiter.FixedWindowRateLimiter.Validate: times are whole nanoseconds, without the rounding of the conversion to double; calls come one after the other, since thread-safe PHP is not supported (config.m4:7-9).
- The Redis plugin, the other plugins and the hooks into the Zend engine: flat dispatch over functions of the host.
