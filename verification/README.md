# A verified model of the injector's response path

The injector is a proxy in front of OpenAI-compatible providers. This project models, in Dafny, the
parts of it that decide what a client may rely on, and proves the properties those parts exist for:

- **Byte-preserving JSON surgery** (`internal/inject`): renaming the model, synthesizing reasoning
  tokens and stripping members, by index scanners that never decode the payload. Documents are
  concrete syntax trees that keep every byte (RFC 8259, sections 2 to 7); rendering is injective on
  them, so "the document of a payload" is well defined. Each scanner is proved to turn the text of a
  tree into the text of another tree, and the trees are related by what the feature promises.
- **Streaming** (`internal/proxy`): the SSE relay over arbitrary read splits, with the line grammar of
  section 9.2.5 of the WHATWG HTML standard; heartbeats interleaved with relay writes, with the
  event interpretation of section 9.2.6; the Chat-to-Anthropic event translator and its buffered twin.
- **The continuation gate**: the accumulator's verdict as a declarative property of the whole run.
- **The admission budget** as atomic steps of any number of threads, and admitted reading.
- **Credential rotation** and the **decision cache** in front of the key store.

Bytes are `char`s of a `string`. Clocks, randomness, reads, client acceptance, store answers and
budget answers are inputs, and every theorem is for all of them. `json.Valid` is a flag tied to
`IsJson`: the payload is the rendering of a well-formed tree.

## Results that limit the source's own promises

Each of these is proved, with the exact condition and a concrete witness.

- *Strip* (`internal/inject/strip.go:231-251`). `coalesceRemovals` widens only the last span. An object
  that keeps a member and then loses a closing run of three or more, with whitespace before an inner
  one, yields edits out of order and `splice` slices with its bounds reversed, a run-time panic. In
  every other case the strip is exact: `StripDoc.SpliceIsStrip`, `StripMeaning.ThreeTrailingMembersPanic`.
- *Usage synthesis* (`internal/inject/usage.go:162-208`, `264-293`). The two member loops do not skip
  whitespace after a comma, so they stop reading at the first later member that has a blank before it,
  and they keep object and other details apart instead of taking the last. The promise is a decoder's
  reading, last occurrences winning, with the upstream's own count never overridden.
  `UsagePromise.AsPromisedIff` says when a usage object gets it, `UsagePromise.DocumentAsPromisedIff`
  when a document does; `UsagePromise.UpstreamCountBehindABlank` and
  `UsagePromise.LastCountBehindABlank` are two that do not.
- *Synthesizing twice* (`internal/inject/usage.go:224-258`). It is synthesizing once unless a zero was
  written into an empty details object with blanks inside, or a details member that is no object was
  filled in front of one that is: `UsagePromise.SecondApplication`, `UsagePromise.DocumentTwice`,
  witnesses `UsagePromise.ZeroIntoABlankObject` and `UsagePromise.FilledInFrontOfAnObject`.
- *Heartbeats* (`internal/proxy/keepalive.go:165-173`, `internal/proxy/sse.go:151-160`). The LF of a
  CRLF is written alone and looks like a blank line; and a ping may precede the first byte, where it
  pushes a byte order mark aside. `Heartbeat.BoundariesIff` and `Heartbeat.HeartbeatsUnseenIff` say
  exactly which streams are safe; `Heartbeat.CrlfEventIsSplit` and `Heartbeat.MarkedEventIsLost` are two
  that are not.
- *Admitted reading* (`internal/proxy/admission.go:113-118`). A source that itself ends in
  `io.ErrUnexpectedEOF`, as a body cut short does, or in an error wrapping that or `io.EOF`, passes for
  complete, where `io.ReadAll`, whose semantics the comment claims, reports the error. The ending is
  the condition and the witness: `Admission.AgreesWithReadAll`.
- *Revocation lag* (`internal/auth/cache.go:9-16`). The sixty seconds run from when a decision is stored,
  not from when the store was asked, so a request that waits between the two extends the lag by its
  wait: `Partner.OkRestsOnActive`, `Partner.RevocationLag`. Counted from the lookup the sixty seconds hold
  exactly when every decision is stored at the time of its lookup: `Partner.LagIff`,
  `Partner.SixtySecondsIff`, witness `Partner.RevocationMayLagLonger`.
- *Opening usage* (`internal/inject/messages_stream.go:156-158`). A comment says a first payload with usage
  seeds message_start with the real counts; the code sends zeros. `MessagesAgree.OpeningAsPromisedIff`:
  the comment is met exactly when that payload states no count above zero; witness
  `MessagesAgree.OpeningUsageIsDropped`.

## Model

| member | source | states |
|---|---|---|
| `Unambiguous.OneDocument` | internal/inject/rewrite.go:48-51 | two well-formed trees with the same text are the same tree, so what is proved of "the document" of a valid payload does not depend on a choice |
| `Scan.SkipWS` | internal/inject/rewrite.go:184-189 | the end of the whitespace run at the index |
| `Scan.WhitespaceRunEnds` | internal/inject/rewrite.go:184-189 | that end is the only index with these properties |
| `Scan.ValueEnd` | internal/inject/rewrite.go:193-206 | the scan equals the recursive search for the closing quote |
| `Scan.QuotedEnds` | internal/inject/rewrite.go:193-206 | on every well-formed string, escapes included, that is the index just past its own closing quote |
| `Scan.CollectionEnd` | internal/inject/rewrite.go:155-181 | the loop equals the recursive bracket count |
| `Scan.ValueSkipped` | internal/inject/rewrite.go:155-181 | the bracket count passes over any well-formed nested value, brackets inside strings included, unchanged |
| `Scan.CollectionEndsAtItsBracket` | internal/inject/rewrite.go:155-181 | the result is the exact end of any well-formed array or object |
| `Scan.SkipValue` | internal/inject/rewrite.go:136-151 | the exact end of any value; a scalar takes its trailing whitespace along |
| `Walk.ReadHeader` | internal/inject/rewrite.go:87-101 | the head shared by the member loops finds the key and the start of the value of the member it stands before, or the closing brace |
| `Edits.Splice` | internal/inject/usage.go:327-336 | the loop equals its recursive form, panic of a reversed slice included |
| `Edits.SpliceDeletes` | internal/inject/usage.go:327-336 | ordered removals delete exactly the covered bytes and keep all others in order |
| `Edits.SplicePanics` | internal/inject/usage.go:327-336 | edits that are not in order make it panic |
| `Edits.CoalesceRemovals` | internal/inject/strip.go:231-251 | the in-place loop equals pushing edits one by one, each merging with the last entry only |
| `Edits.PushAllCovers` | internal/inject/strip.go:231-251 | coalescing keeps the union of the removed ranges |
| `Strip.MatchKey` | internal/inject/strip.go:163-177 | a member is excised exactly when a path ends at its key; otherwise the paths that go on below it are kept, in order |
| `Strip.StripObject` | internal/inject/strip.go:126-213 | the recorded edits are those of the member list, nested objects and the response envelope included |
| `StripTree.ObjectInOrder` | internal/inject/strip.go:219-251 | the coalesced edits are ordered and non-overlapping if and only if no reached object ends, after a survivor, in three or more excised members with a blank before an inner one |
| `StripText.ValueKept` | internal/inject/strip.go:126-213 | the bytes no edit covers are the rendering of the stripped tree |
| `StripDoc.SpliceIsStrip` | internal/inject/strip.go:86-251 | coalescing and splicing what the walk records gives the text of the stripped tree, or panics, exactly as the condition says |
| `StripDoc.StripFields` | internal/inject/strip.go:86-103 | invalid payloads come back as they were; valid ones become the text of the stripped document, or the panic, for every path list of the Chat scope and every Responses list without a path through `response` |
| `StripDoc.StripChatFields` | internal/inject/strip.go:68-70 | the same for the Chat scope with no condition on the paths |
| `StripDoc.GateIsSound` | internal/inject/strip.go:110-117 | a document that mentions no first segment is its own strip and cannot panic |
| `StripMeaning.ExcisedIffNamed` | internal/inject/strip.go:163-207 | following object keys from the root, the member at a key path is excised exactly when the list names that path |
| `StripMeaning.ExcisedIffGone` | internal/inject/strip.go:163-207 | in both scopes, the walk excises the member at a key path exactly when the list names that path or, in the Responses scope, names it without a leading `response` |
| `StripMeaning.StripPrunesValue` | internal/inject/strip.go:126-213 | said by key paths alone: the stripped tree has exactly the members whose path is not listed, in order, duplicates treated alike, each with its key, its bytes up to the value and its own stripped value; arrays and scalars are untouched |
| `StripMeaning.StripIsByPaths` | internal/inject/strip.go:86-213 | the whole document is pruned by that rule, in both scopes |
| `StripMeaning.StripRemovesNamed` | internal/inject/strip.go:46-70 | a key path stands in the output as often as in the input, unless it or a member on the way to it is listed, bare or, in the Responses scope, inside the envelope; then it does not stand there at all |
| `StripMeaning.StripKeepsWF` | internal/inject/strip.go:46-67 | the output is valid JSON |
| `StripMeaning.ThreeTrailingMembersPanic` | internal/inject/strip.go:231-251 | `{"a":1, "b":2, "c":3, "d":4}` stripped of b, c and d panics |
| `Model.ScanModelSpans` | internal/inject/rewrite.go:81-126 | the spans found are those of the in-scope string-valued model members |
| `Model.RewriteModel` | internal/inject/rewrite.go:48-73 | a valid payload becomes the text of the tree in which just those members carry the public name; an invalid one is returned as it was |
| `Model.SplicedIsRenamed` | internal/inject/rewrite.go:48-73 | replacing the spans renders the renamed tree: every byte outside the values is kept |
| `Model.RenameChangesOnlyModel` | internal/inject/rewrite.go:81-126 | a string at `model`, and in the Responses scope at `response.model`, becomes the public name; every other value, key, blank and place is as it was |
| `Model.RenameKeepsWF` | internal/inject/rewrite.go:48-73 | the output is valid JSON |
| `Model.RenameTwice` | internal/inject/rewrite.go:48-73 | rewriting twice equals rewriting once with the second name |
| `Tokens.DecimalRoundTrip` | internal/inject/usage.go:312-322 | a count that is written is read back as itself |
| `Tokens.NegativeCount` | internal/inject/usage.go:312-322 | a negative integer is read as one |
| `Tokens.SpanCount` | internal/inject/usage.go:306-322 | reading a value span with its trailing whitespace gives the count the value spells |
| `Tokens.Share` | internal/inject/usage.go:231-235 | the synthesized count is the whole part of the share of a completion above ten tokens, and 0 for ten or fewer; it is never below 0 nor above the completion |
| `Usage.MemberSpan` | internal/inject/usage.go:264-293 | the span of the last member of that name among those the loop reaches |
| `Usage.ReadUsage` | internal/inject/usage.go:160-208 | what the loop remembers, last occurrences winning, over the members it reaches |
| `Usage.UsageEdit` | internal/inject/usage.go:160-258 | the one edit, or none, decided from that |
| `Usage.ScanUsageEdits` | internal/inject/usage.go:110-154 | the edits of every usage object in scope, in order |
| `UsageTree.UsagePatched` | internal/inject/usage.go:209-258 | the edit turns the usage object into itself with the count set, inserted or left alone; every sibling byte survives |
| `UsageDoc.SplicedIsSynthesized` | internal/inject/usage.go:92-104 | splicing the edits renders the synthesized tree |
| `UsageDelta.SynthesisChangesOnlyUsage` | internal/inject/usage.go:110-154 | exactly the objects at `usage`, and in the Responses scope at `response.usage`, are synthesized; every other value, key, blank and place is as it was |
| `UsageDelta.FindIsLastInReach` | internal/inject/usage.go:264-293 | what a lookup finds is the last member of that name, and kind, at a position before the first later member with a blank in front |
| `UsageDelta.UsageTakesTheCount` | internal/inject/usage.go:209-258 | the count goes to one place, told by position: the last count of the last details object, else the last details that are no object, else first in the last details object, else first in the usage; every other member is untouched |
| `UsageDelta.UsageBecomes` | internal/inject/usage.go:160-258 | a usage object is unchanged when its last reasoning count, direct or in its details, is above zero or unreadable, or when its last completion count is no number in (0, 2^62]; otherwise it takes 0 for at most ten tokens and else the whole part of the share, unless a bare zero stands there already |
| `UsageDoc.SynthesizeUsage` | internal/inject/usage.go:92-104 | every valid payload, duplicated members included, becomes the synthesized tree; invalid ones are returned as they were |
| `UsageDoc.NoUsageNoChange` | internal/inject/usage.go:92-98 | a document that never mentions "usage" is its own synthesis |
| `UsagePromise.AsPromisedIff` | internal/inject/usage.go:156-258 | the result is the one of a decoder's reading, the whole object and last occurrences, if and only if both readings find a count stated, none to share or the zero in place, or both find the same share to write and the last details member and its last count are neither hidden behind a blank nor passed over for one of another kind |
| `UsagePromise.LeftAloneIff` | internal/inject/usage.go:209-245 | a usage object comes back unchanged exactly when a count is stated, none can be shared, or the zero to write stands there |
| `UsagePromise.DocumentAsPromisedIff` | internal/inject/usage.go:110-154 | a document is synthesized as promised exactly when each usage object in scope is |
| `UsagePromise.PlainSightAsPromised` | internal/inject/usage.go:156-258 | it is whenever no consulted member is hidden and details are of one kind |
| `UsagePromise.CompactAsPromised` | internal/inject/usage.go:160-258 | usage objects without blanks before later members, and with details of one kind, are treated as promised |
| `UsagePromise.UpstreamCountBehindABlank` | internal/inject/usage.go:202-217 | `{"completion_tokens":100, "reasoning_tokens":50}` gets a synthesized count although the upstream stated one |
| `UsagePromise.LastCountBehindABlank` | internal/inject/usage.go:156-217 | so does `{"completion_tokens":100,"reasoning_tokens":0, "reasoning_tokens":50}`, whose last count is 50 |
| `UsagePromise.SecondApplication` | internal/inject/usage.go:160-258 | a second application changes nothing, if and only if the first neither wrote a zero into an empty details object with blanks inside nor filled a details member that is no object in front of one that is |
| `UsagePromise.DocumentTwice` | internal/inject/usage.go:92-154 | the same of whole documents: exactly when it holds of each usage object in scope |
| `UsagePromise.ZeroIntoABlankObject` | internal/inject/usage.go:246-251 | `{"completion_tokens":5,"completion_tokens_details":{ }}` changes a second time |
| `UsagePromise.FilledInFrontOfAnObject` | internal/inject/usage.go:186-199 | `{"completion_tokens":100,"completion_tokens_details":null,"completion_tokens_details":{}}` changes a second time, and not as promised the first |
| `StripPath.ParseStripPath` | internal/config/runtime.go:1498-1575 | the cursor loop equals the recursive parse, with the same error for the same input |
| `StripPath.AcceptedIffSpelled` | internal/config/runtime.go:1498-1590 | a text is accepted with a segment list exactly when it spells that list, bare or quoted with doubled quotes, and the list is valid and not reserved |
| `StripPath.OwnMembersAreRefused` | internal/config/runtime.go:1654-1691 | no text is accepted as the path of one of the eight members the proxy writes itself |
| `Pipeline.RewriteOut` | internal/proxy/handler.go:890-899 | rename, synthesis and strip in that order, each on the document the one before left, for every payload |
| `Pipeline.ShapesByApi` | internal/inject/usage.go:37-45 | Chat counts completions in `completion_tokens` with `completion_tokens_details`, Responses in `output_tokens` with `output_tokens_details` |
| `Pipeline.GateTurnsAwayOnlyIdentity` | internal/proxy/sse.go:426-457 | a document with none of `"model"`, `"usage"` or a quoted first segment in it comes through all three unchanged |
| `Pipeline.OwnedMembersSurvive` | internal/config/runtime.go:1654-1691 | for every accepted strip list, after all three stages each string-valued top-level model is there with the public name and each top-level usage is there |
| `Pipeline.EnvelopesSurvive` | internal/config/runtime.go:1654-1691 | in the Responses scope the same holds inside every response object, and none of them is lost unless the list names it |
| `Gate.StripPatterns` | internal/inject/strip.go:16-37 | exactly the quoted first segments, each once |
| `Gate.OutcomeIsOfThePayload` | internal/proxy/handler.go:890-899 | the composed outcome is a function of the payload's bytes |
| `Gate.GatedStreamingIsRewriting` | internal/proxy/sse.go:426-457 | rewriting behind the gate equals rewriting every data payload, prefix and terminator bytes unchanged |
| `Sse.LinesAreExact` | internal/proxy/sse.go:240-252 | splitting into the CR, LF and CRLF lines of the standard loses no byte |
| `Sse.Upstream.ReadToLineEnd` | internal/proxy/sse.go:252-317 | whatever is buffered, a first part of the line at the reader, whole only with its terminator |
| `Sse.Upstream.ReadBoundedLine` | internal/proxy/sse.go:327-360 | the whole line at the reader, or too long, depending on the bytes alone |
| `Sse.CopySSE` | internal/proxy/sse.go:113-238 | writes, observations, flushes, statistics and outcome are those of the relay over the lines of the standard, for every split of the bytes into reads, every client and both ways the body may end |
| `Sse.BytesAreLines` | internal/proxy/sse.go:119-160 | the relay's own cuts and its remembered CR amount to the lines of the standard |
| `SseRuns.PassIsItsLines` | internal/proxy/sse.go:113-238 | a pass reads to the end if and only if every line and event is within its limit and the client takes it all; it has then observed every data payload with the name its own frame stated, counted and flushed every blank line, and knows whether a terminal marker was sent |
| `SseRuns.CopyObserves` | internal/proxy/sse.go:113-238 | the same of CopySSE itself, for every body and every split into reads |
| `Observer.LineIsReadAsTaken` | internal/proxy/sse.go:465-496 | the payload read off any line is what that line adds to the data of the client of the standard, and the name what it sets the event type to; only a bare `data` or `event` is a field for the client alone |
| `Observer.ObservationsAreTheClients` | internal/proxy/sse.go:113-238 | over a whole stream without such bare fields, the observations are the client's data, line by line, each with the event type the client has then |
| `Observer.ObservedAsTheClient` | internal/proxy/sse.go:113-238 | the same of CopySSE itself, for every body and every split into reads |
| `Observer.ClientTakesTheRewritten` | internal/proxy/sse.go:426-457 | the client of a rewritten stream takes a data line for exactly the rewritten payload |
| `Observer.TerminalMarkersAre` | internal/proxy/sse.go:406-411 | the terminal markers are three exact lines, whatever their terminator |
| `SseRuns.CopyCopies` | internal/proxy/sse.go:113-238 | without rewriting, what CopySSE hands the client is a first part of the body, and all of it when read to its end, for every split into reads |
| `Sse.RelayCopies` | internal/proxy/sse.go:113-238 | without rewriting, the client gets a first part of the stream, and all of it when the stream is read to its end |
| `EventStream.StreamIsItsLines` | internal/proxy/keepalive.go:10-16 | reading a stream byte by byte is reading its lines, a leading byte order mark left out, by sections 9.2.5 and 9.2.6 of the WHATWG HTML standard |
| `EventStream.PingIsInert` | internal/proxy/keepalive.go:10-16 | between events a ping leaves no trace in the client |
| `EventStream.PingElsewhereShows` | internal/proxy/keepalive.go:18-25 | inside an event it does |
| `KeepAlive.PingWriter.Write` | internal/proxy/keepalive.go:84-101 | clock, boundary and terminal latch after the bytes the client accepted |
| `KeepAlive.PingWriter.MaybePing` | internal/proxy/keepalive.go:117-130 | a ping goes out exactly when the stream is unfinished, at a boundary and silent long enough |
| `KeepAlive.PingIff` | internal/proxy/keepalive.go:117-130 | in every run, a tick sends a ping, and one only, if and only if the place is open to one and the client was last sent a byte at least the interval ago; otherwise nothing changes |
| `KeepAlive.FieldsTellPosition` | internal/proxy/keepalive.go:84-130 | in every interleaving, deleting the pings leaves what was relayed, and the latches say what the last write was and whether any was terminal |
| `KeepAlive.PingsArePlaced` | internal/proxy/keepalive.go:84-130 | every ping stands after what looks like a blank line and before any terminal marker |
| `KeepAlive.PingsAreInvisible` | internal/proxy/keepalive.go:84-130 | over a stream whose pauses lie between events, and whose first write means the same behind a ping, the client with pings and the client without are in the same state at every moment |
| `Heartbeat.PlacesArePauses` | internal/proxy/keepalive.go:165-173 | the places open to a ping are the start, the blank LF lines and the ends of CRLF lines, before the terminal marker |
| `Heartbeat.BoundariesIff` | internal/proxy/keepalive.go:165-173 | all of them are event boundaries if and only if no line that is not blank ends in CRLF before the terminal marker |
| `Heartbeat.HeartbeatsUnseenIff` | internal/proxy/keepalive.go:84-130 | no interleaving shows, at any moment, if and only if no such line leaves data, an event name or an event ID pending, and the stream does not open with a byte order mark before a line that means something |
| `Heartbeat.LFStreamsAreSafe` | internal/proxy/keepalive.go:160-173 | on streams without CRLF and byte order mark, every ping stands at an event boundary and none shows |
| `Heartbeat.MarkedEventIsLost` | internal/proxy/keepalive.go:55-57 | an event behind a byte order mark is lost to a ping in front of it |
| `RelayedHeartbeat.RelayDelivers` | internal/proxy/sse.go:113-238 | what CopySSE hands the client is the writes of the rewritten lines, up to where it stops, the last perhaps cut short |
| `RelayedHeartbeat.RelayedHeartbeatsUnseen` | internal/proxy/keepalive.go:81-130 | for every body without a byte order mark, client and interleaving, heartbeats over CopySSE do not show under that condition, with any rewriter that brings no line break into a payload |
| `Framing.OutcomeIsUnbroken` | internal/proxy/handler.go:890-899 | rename, synthesis and strip bring no line break into a payload that has none |
| `Framing.ServedHeartbeatsUnseen` | internal/proxy/handler.go:890-899 | so heartbeats over the stream as served do not show, as long as no payload makes the strip panic |
| `Heartbeat.CrlfEventIsSplit` | internal/proxy/sse.go:151-160 | a two-line event with CRLF is a stream where they do |
| `Continuation.PartialText.Observe` | internal/proxy/continuation.go:269-333 | the accumulator's new state is one small step on what the payload states by itself |
| `Continuation.PartialText.BeginUpstreamStream` | internal/proxy/continuation.go:243-252 | identity and region start anew, prefix and latches stay |
| `Continuation.PartialText.ObserveChoice` | internal/proxy/continuation.go:416-481 | one Chat choice, with the source's order of refusals |
| `Continuation.PartialText.ObserveTextDone` | internal/proxy/continuation.go:665-695 | finishes only on the region's own text, or on a first text for an empty region |
| `Continuation.PartialText.BindTextStream` | internal/proxy/continuation.go:1023-1051 | binds the item and the part, or refuses |
| `Continuation.PartialText.Verdict` | internal/proxy/continuation.go:342-352 | the verdict of that state, with the text only when recoverable |
| `ContinuationRuns.Judge` | internal/proxy/continuation.go:269-352 | the class over any sequence of payloads and responses gives the verdict of the run |
| `ContinuationRuns.LiveIffClean` | internal/proxy/continuation.go:269-482 | no refusal and no end so far exactly when the run is clean: every payload plain, any two payloads of one response in agreement, every closing part telling its response's text, and the total under the limit |
| `ContinuationRuns.RecoverableIff` | internal/proxy/continuation.go:342-352 | the verdict is recoverable with a text if and only if the run is clean and that text is the wire-order concatenation of all deltas, and not empty |
| `ContinuationRuns.TerminalIff` | internal/proxy/continuation.go:375-379 | the verdict is terminal if and only if some payload ended the answer after a clean run, a done event only with its response's own text or as the first of it |
| `ContinuationRuns.VerdictsAreMonotone` | internal/proxy/continuation.go:361-390 | a refusal or an end is the verdict of every longer run; while recoverable the prefix only grows, and the region starts within it |
| `ContinuationRuns.ContinuedStreamIsPlain` | internal/proxy/continuation.go:394-651 | a recoverable run carried no tool call, refusal, failure, unknown event, misnamed frame, second choice or finish in any payload of any response |
| `ContinuationRuns.RecoveredTextIsTheWire` | internal/proxy/continuation.go:335-352 | the recovered prefix is all the text the payloads carried on the wire, in order, across responses, not empty and under the limit |
| `ContinuationRuns.OnePlacePerResponse` | internal/proxy/continuation.go:1023-1073 | within one response all text events name one item, output index and content index |
| `ContinuationWire.PlainIff` | internal/proxy/continuation.go:269-651 | a payload is accepted as plain if and only if its own members say so: for each API and each event kind, which members must, may and must not be there, and with which values |
| `ContinuationWire.NamesAreRead` | internal/proxy/continuation.go:1023-1073 | the item, output index and content index taken from a payload are the ones its members spell |
| `ContinuationWire.RecoverableFromTheWire` | internal/proxy/continuation.go:335-352 | on the payloads alone: a run is recoverable with a text if and only if every payload is plain, the payloads of a response agree, closing parts tell their text, the total is under the limit, and the text is the joined deltas, not empty |
| `ContinuationWire.GateDecides` | internal/proxy/continuation.go:269-352 | the same of the accumulator itself, over every sequence of payloads and responses |
| `ContinuationWire.TerminalFromTheWire` | internal/proxy/continuation.go:375-379 | on the payloads alone: a run is terminal if and only if one of them ends the answer after such a run |
| `ContinuationWire.OneDeltaIsRecovered` | internal/proxy/continuation.go:996-1010 | one text delta with item, indexes and a text under the limit is recovered as that text |
| `ContinuationWire.ReasonsNameTheCause` | internal/proxy/continuation.go:269-333 | what is no JSON object is refused as that, an error member as the upstream's failure, and a tool call in a Chat chunk as a tool call |
| `ContinuationWire.EventReasonsNameTheCause` | internal/proxy/continuation.go:508-651 | a well-named Responses event of a tool call, a refusal or a failure is refused as what it is |
| `Messages.ChatToMessagesStream.Frame` | internal/inject/messages_stream.go:112-181 | after any payload, what was emitted so far parses as a well-formed stream whose client holds exactly the answer told so far |
| `Messages.ChatToMessagesStream.Finish` | internal/inject/messages_stream.go:186-191 | the same at a clean end of input |
| `Messages.ChatToMessagesStream.AppendContent` | internal/inject/messages_stream.go:215-266 | the events of one choice add its text and its calls to the client's content |
| `Messages.ChatToMessagesStream.AppendTerminate` | internal/inject/messages_stream.go:285-304 | closes the open block, then stop reason and counts, then the stop |
| `MessagesAgree.Translate` | internal/inject/messages_stream.go:112-304 | for every payload sequence, with or without a clean end, the emitted events are accepted by the strict client automaton and leave it with the told answer |
| `MessagesAgree.EndIsLast` | internal/inject/messages_stream.go:285-304 | nothing follows message_stop or an error event |
| `MessagesAgree.BlocksAreNumbered` | internal/inject/messages_stream.go:215-280 | blocks are numbered 0, 1, 2 and so on, and every delta and stop names the block last begun |
| `MessagesAgree.StopNeedsFinish` | internal/inject/messages_stream.go:120-129 | a message is stopped only with a finish reason some payload stated |
| `MessagesAgree.FirstEndDecides` | internal/inject/messages_stream.go:112-181 | an answer is finished, failed or still going as the first deciding payload says: an end marker after a finish reason, the chunk by which finish reason and usage are both stated, or a failure; until then both are those last stated |
| `MessagesAgree.NothingSaidIsLost` | internal/inject/messages_stream.go:215-266 | in any order of text and calls, while the answer goes on the client holds all the text and all the announced calls, in order |
| `MessagesAgree.FragmentsCarry` | internal/inject/messages_stream.go:332-344 | the argument text of a fragment: the string's own text, a whole object as it stands, and nothing otherwise |
| `MessagesAgree.StopReasonsStandFor` | internal/inject/messages.go:938-955 | the stop reason for each finish reason |
| `MessagesAgree.CountsReport` | internal/inject/messages.go:963-993 | prompt tokens are reported as input, completion tokens as output, and what is not stated as zero |
| `MessagesAgree.OpeningIsZeros` | internal/inject/messages_stream.go:196-210 | every message_start of every stream carries zero counts |
| `MessagesAgree.OpeningAsPromisedIff` | internal/inject/messages_stream.go:156-178 | the opening carries the first chunk's counts, as the comment says, exactly when that chunk states none above zero |
| `MessagesAgree.OpeningUsageIsDropped` | internal/inject/messages_stream.go:156-178 | a first chunk with an id and seven prompt tokens opens a message with none |
| `MessagesAgree.ChatAnswerContent` | internal/inject/messages.go:875-932 | one text part if there is text, then the calls that have an id and a name, with their input objects |
| `MessagesAgree.CallsAreAnswered` | internal/inject/messages.go:875-932 | the tool blocks are the calls with id and name, in order and with these; the input is the argument text itself when that is valid and opens an object, and `{}` otherwise |
| `MessagesAgree.ChatToMessages` | internal/inject/messages.go:800-868 | the whole buffered reply; refused exactly when the body is not an object; a first choice decoded only in part gives its text and calls but neither role nor stop reason |
| `MessagesAgree.StreamedAsBuffered` | internal/inject/messages_stream.go:159-304 | when text precedes calls, each call is announced with id and name before its fragments and nothing follows the known end, the client holds the joined text and then each call with its id, name and joined argument text, and streaming and buffering the folded message give the same content, stop reason, counts, model and id |
| `Budget.StepKeeps` | internal/memlimit/memlimit.go:73-116 | every atomic step of every thread keeps the accounting invariant |
| `Budget.NeverOverLimit` | internal/memlimit/memlimit.go:73-104 | at every step of every interleaving, used is between 0 and the limit and is the sum of what threads hold and have in flight, and the clamp is never reached |
| `Budget.GrantedIffItFits` | internal/memlimit/memlimit.go:73-87 | undisturbed, a reservation is granted, booked and marked exactly when it fits, and otherwise leaves everything as it was |
| `Budget.RefusedOnlyIfFull` | internal/memlimit/memlimit.go:77-86 | however others interfere, a reservation goes on for its amount until it is granted that amount or a load sees that it does not fit |
| `Budget.ReleasedOnce` | internal/proxy/admission.go:73-79 | undisturbed, a release gives back all that is held, and a second one nothing |
| `Budget.QuiescentIsExact` | internal/memlimit/memlimit.go:109-116 | with no call in progress, used is what is held and peak is the highest used ever was |
| `Budget.HighWasReached` | internal/memlimit/memlimit.go:59-62 | that highest value was really reached |
| `Budget.HighIsHighest` | internal/memlimit/memlimit.go:59-62 | and never exceeded |
| `Admission.Admission.Reserve` | internal/proxy/admission.go:58-67 | a grant adds to what is held, a refusal leaves it |
| `Admission.Admission.Release` | internal/proxy/admission.go:73-79 | gives back all that is held, and nothing the second time |
| `Admission.ReadAllAdmitted` | internal/proxy/admission.go:102-126 | the source's bytes with exactly the blocks it needs held; or the first refusal, or the error, with exactly the granted blocks held |
| `Admission.ReservationIsTight` | internal/proxy/admission.go:28-41 | that covers the bytes with at most 1 MiB, and at most the length and 64 KiB, to spare |
| `Admission.ReservedIs` | internal/proxy/admission.go:119-124 | blocks double from 64 KiB to 1 MiB and stay there, as closed forms of the first k together |
| `Admission.RequestsAreFew` | internal/proxy/admission.go:34-39 | a body of 960 KiB or more costs five requests to the budget and one more for each further mebibyte, a shorter one at most four |
| `Admission.ReadThenRelease` | internal/proxy/admission.go:73-126 | one release returns what was granted, a second nothing, on success, refusal and error |
| `Admission.AgreesWithReadAll` | internal/proxy/admission.go:92-118 | the error semantics match io.ReadAll if and only if the source ends in io.EOF itself or in an error that matches neither io.EOF nor io.ErrUnexpectedEOF |
| `Credential.ParseRateLimit` | internal/config/auth.go:107-138 | the stated limits, or 2 s and 60 s, with a positive cooldown within a maximum within two minutes; exactly the others are refused |
| `Credential.CooldownFor` | internal/proxy/credential.go:38-46 | the directive when it is positive, cut to the maximum, and the configured cooldown otherwise |
| `Credential.CredentialPool.Acquire` | internal/credential/state.go:67-88 | a ready preferred key without moving the cursor, else the first ready key from the cursor, which moves past it |
| `Credential.CredentialPool.MarkRateLimited` | internal/credential/state.go:105-121 | a deadline is only ever moved later |
| `Credential.CredentialPool.NextReady` | internal/credential/state.go:128-142 | the earliest deadline still ahead, if any |
| `Credential.FailsIff` | internal/credential/state.go:67-88 | acquiring fails exactly when no key is ready |
| `Credential.RetriesKeepTheirKey` | internal/credential/state.go:67-78 | a retry keeps its key while that is ready, without moving the rotation; with a key that is cooling, unknown or not stated it is served like anyone |
| `Credential.FailureIsExact` | internal/credential/state.go:122-142 | after a failure the reported time lies ahead, every time before it fails and every time from it on succeeds |
| `Credential.DeadlineIsLatestMark` | internal/credential/state.go:99-121 | in every run a key's deadline is the maximum of its marks |
| `Credential.LatestIsMax` | internal/credential/state.go:99-121 | that maximum bounds every mark and is one of them |
| `Credential.DeadlineIsBounded` | internal/proxy/credential.go:25-46 | it is at most the latest mark time plus the maximum cooldown |
| `Credential.MovesNearer` | internal/credential/state.go:79-86 | an acquisition that moves the cursor hands out a given ready key or brings the cursor strictly nearer to it |
| `Credential.NoStarvation` | internal/credential/state.go:67-88 | a key ready at as many moving acquisitions as there are keys is handed out by one of them |
| `DecisionCache.Cache.Get` | internal/auth/cache.go:68-83 | map and recency list stay in bijection within capacity; an expired entry is dropped, a live one becomes the most recent |
| `DecisionCache.Cache.Put` | internal/auth/cache.go:91-120 | the decision goes first with its lifetime, backend failures are ignored, what no longer fits leaves from the back |
| `DecisionCache.RecentFirst` | internal/auth/cache.go:68-120 | in every run the list is ordered by last use, each key once |
| `DecisionCache.EvictsLeastRecentlyUsed` | internal/auth/cache.go:112-119 | what is evicted was used longer ago than everything that stays |
| `DecisionCache.FoundIff` | internal/auth/cache.go:68-83 | a lookup finds a decision exactly when the cache holds one for the key that has not expired |
| `DecisionCache.EntersIff` | internal/auth/cache.go:91-111 | in every run, an entry enters exactly when it is stored, with 60 s when it is OK and 5 s otherwise, and never for a backend failure |
| `DecisionCache.LeavesIff` | internal/auth/cache.go:68-120 | in every run, an entry leaves exactly when a lookup sees it expired, another decision for its key replaces it, or a new key comes to a full cache in which it is the least recently used |
| `DecisionCache.NeverOverCapacity` | internal/auth/cache.go:112-119 | no run holds more entries than the capacity |
| `Partner.Authenticate` | internal/auth/partner.go:43-85 | one undisturbed request: malformed tokens touch nothing, a hit answers from the cache, a miss answers from the store and keeps the decision |
| `Partner.DecisionsStandFor` | internal/auth/partner.go:58-84 | an active record is OK with its own partner and key, a revoked one is revoked, an unknown status or no record is unknown, and a store error is a backend failure, none of these naming anyone |
| `Partner.RunsKeep` | internal/auth/partner.go:43-85 | with requests overlapping freely, every entry and answer rests on what the store said about its own digest |
| `Partner.OkRestsOnActive` | internal/auth/partner.go:52-73 | every OK rests on an active record for that digest, looked up and stored by one request: its own, or from the cache the last stored, less than 60 seconds before |
| `Partner.RevocationLag` | internal/auth/cache.go:9-16 | with waits of at most w between lookup and store, no OK is told 60 seconds and w after the last lookup that could find the key active |
| `Partner.LagIff` | internal/auth/cache.go:9-16 | counted from the lookup, every OK the cache could give at any moment of a run is younger than 60 seconds and w, if and only if no OK was stored more than w after its lookup |
| `Partner.SixtySecondsIff` | internal/auth/cache.go:9-16 | so the 60 seconds hold from the lookup exactly when every OK is stored at the time of its lookup |
| `Partner.CachedRefusalIsRecent` | internal/auth/partner.go:52-84 | every cached refusal was stored less than 5 seconds before, rests on the store, and is never a backend failure |
| `Partner.BackendIsNeverReplayed` | internal/auth/partner.go:63-67 | a backend failure is told only by the request that met it |
| `Partner.RevocationMayLagLonger` | internal/auth/cache.go:9-16 | a run that answers OK 159 seconds after the store was last asked |

## Left out

- StripDoc.StripFields: says nothing of the Responses scope when a path itself continues through `response`; the envelope is then scanned twice and its edits arrive out of order.
- StripMeaning.StripRemovesNamed: likewise leaves out Responses lists with a path that continues through `response`.
- Tokens.Share: uses reals with the share in [0, 1]; float64 rounding and the random draw of the share are not modelled.
- KeepAlive.PingWriter.MaybePing: a ping is taken whole or not at all; a torn ping write is not modelled.
- Framing.ServedHeartbeatsUnseen: says nothing of a stream with a payload that makes the strip panic; the relay does not outlive it.
- Observer.ObservationsAreTheClients: leaves out streams with a bare `data` or `event` line, a field with an empty value for the client and no field for the relay.
- Observer.ClientTakesTheRewritten: leaves out a rewriter that puts a leading space behind a colon without one; the client drops that space.
- Sse.CopySSE: the flush and observe callbacks are always present, and a read error is reported after the bytes before it, as bufio does.
- Messages.ChatToMessagesStream.Frame: starts from decoded payloads; JSON decoding of chunks and the encoding of events are library calls.
- MessagesAgree.StreamedAsBuffered: compares tool inputs as texts before the encoder compacts them.
- Continuation.PartialText.Observe: starts from decoded JSON values; a number is an integer literal that fits an int or something else.
- DecisionCache.Cache.Put: list elements are keys in a sequence, not linked nodes.
- Credential.CredentialPool.Acquire: the mutex makes each operation one step, and key values are not modelled, only ids.
- Budget.NeverOverLimit: int64 overflow does not arise within these bounds and is not modelled.
- JSON nesting limits of the decoder (10000 levels) and bytes above 255 in `char`.
- The `serve` candidate walk, recovery matrix, dialing of continuations, `CopyMessagesSSE` and the recovery window.
- HTTP, headers, error envelopes, logging, timers, SQL storage, configuration decoding, hashing and constant-time comparison.
- Request-side injection, the vision scan, thinking intent and continuation body builders, which are shallow map edits.
