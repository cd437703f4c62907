# Verification model of the HTTP and DFS core

A Dafny model of the HTTP/1.1 library (message codec, session state machine, server and client
sessions) and of the distributed file system's name node and path-lock table, with proofs of
what they promise over every input and every run. `dafny verify dfyconfig.toml` checks it.

## What is modelled

- `Strings` — trimming, lower-casing and normalising, as pure functions and as the in-place overloads.
- `Streams` — the stream library the parsers stand on: `getline`, token extraction, `uint16` extraction,
  `from_chars` into a 64-bit size, decimal printing.
- `Headers` — the case-insensitive header map, the header-block parser, `Content-Length`, and where the
  parser stops compared with the CRLF CRLF delimiter.
- `Codec`, `RoundTrip` — requests and responses (both are a start line, headers and a body), their
  printers and parser, the response factories, and the round trips.
- `Segments`, `Framing`, `Session`, `Chunking` — cutting a stream into pieces; how a message sits in a byte
  stream; the session as a state machine over socket and timer completions; one read cycle under arbitrary
  chunking.
- `Server`, `Client` — the derived sessions: the keep-alive loop and the single-slot callback protocol, and
  the two together.
- `NameNode` — namespace, directory listing and data-node selection.
- `PathLocks` — the lock table as an interleaving of threads.
- `Walks`, `Runs` — a hash map is walked in an arbitrary order; runs of a step function.

A byte string is a Dafny `string`; all statements quantify over all characters, so in particular over
bytes, and `|s|` counts bytes. The locale is the C locale. Sizes that the program keeps in 64 or 16 bits
are bounded by `SIZE_LIMIT` and `U16_LIMIT`; header and body limits are natural numbers.

Sockets and the clock are events. `Session.Enabled` says which completions are possible: a read delivers
any non-empty chunk that still fits, an operation may fail at any time, it is aborted only after a
shutdown, a completion already queued still arrives after a shutdown, and a timer handler already queued
with success can no longer be cancelled. Hooks of the derived class are called in tail position, so a
handler returns the hook it ends in. The client's `host` is the host and port text it sends. A request
issued from inside a callback is a `Request` action right after the completion that called it, because
nothing follows the call in the handler. The handler's answer, the iteration order of hash maps, and times
are parameters or arbitrary choices.

Each object that the program updates in place is a class (`Text`, `InputStream`, `HeaderTable`,
`Connection`, `ServerSession`, `ClientSession`, `NameNode`) whose methods are proved equal to functions on
values; the theorems over runs are about those functions.

## Where the code differs from what it says or intends

- The comment at `src/http/common.cpp:148` speaks of leading whitespace only; the code trims both ends.
- The response printer compares stored keys with `"Content-Length"` and `"Connection"`, but the map stores
  lower-cased keys. `RoundTrip.KeepAliveIsLost` is a concrete response that does not read back;
  `RoundTrip.ResponseReadsBackIff` gives the exact condition under which one does, and
  `RoundTrip.IntendedResponseReadsBack` what request-style lower-casing would give. As a consequence the
  client always sees this server's responses as closing (`Client.ServerAlwaysReadsAsClosing`).
- A session rejects a message when one chunk also carries bytes beyond it: `Server.PipelinedPairIsRejected` is
  a concrete pair of requests, `Chunking.OverReadIsRejected` the general case, and
  `Chunking.DeliversIffAcceptable` the exact condition.
- Free space is an unsigned difference. `NameNode.OverfullIsChosen` is a concrete wrong
  selection; `NameNode.RanksTrulyIff` is the exact condition.
- `lock` waits for a path's mutex with the table mutex in hand. `PathLocks.WaiterNeverProceeds` is a
  concrete run in which a waiter never proceeds; `PathLocks.AdvancesIffNotStuck` is the exact condition on a
  state and `PathLocks.RunBlocksIffLocksHeld` on a run.

## Model

| member | source | states |
|---|---|---|
| `Strings.SixSpaces` | src/utils/strings.cpp:14-24 | white space is exactly the bytes 9 to 13 and 32 |
| `Strings.TrimIsTheCore` | src/utils/strings.cpp:14-24 | trimming yields the one core with non-space ends between white prefix and suffix, i.e. the maximal such substring |
| `Strings.TrimSplits` | src/utils/strings.cpp:14-24 | every string is white space, its trimmed form, and white space |
| `Strings.TrimIgnoresPadding` | src/utils/strings.cpp:14-24 | added padding cannot be seen through trimming |
| `Strings.LowerOfTrim` | src/utils/strings.cpp:44-60 | lower-casing and trimming commute |
| `Strings.NormalizeIdempotent` | src/utils/strings.cpp:57-60 | a normalised name is a fixpoint of normalising, trimming and lower-casing |
| `Strings.NormalizeIgnoresCaseAndPadding` | src/utils/strings.cpp:57-60 | names that differ only in case and padding normalise alike |
| `Strings.LowerOnlyCapitals` | src/utils/strings.cpp:44-49 | lower-casing changes the case of ASCII capitals and nothing else |
| `Strings.LowerAlikeIff` | src/utils/strings.cpp:44-49 | two strings are lower-cased alike iff they differ in ASCII letter case only |
| `Strings.NormalizeAlikeIff` | src/utils/strings.cpp:57-60 | two names normalise alike iff, without their padding, they differ in ASCII letter case only |
| `Strings.Text.TrimInPlace` | src/utils/strings.cpp:26-42 | the two in-place erasures leave exactly what the pure overload returns |
| `Strings.Text.LowerInPlace` | src/utils/strings.cpp:51-55 | the in-place transform leaves exactly what the pure overload returns: the same letters, none of them a capital |
| `Strings.Text.NormalizeInPlace` | src/utils/strings.cpp:62-65 | the in-place overload leaves exactly what the pure overload returns |
| `Streams.InputStream.GetLine` | src/http/common.cpp:133 | getline fails only on an empty rest, stores the text before the first LF and consumes it with its LF |
| `Streams.LineOfLf` | src/http/common.cpp:133-139 | a line without a carriage return is read whole, also the last one without a line feed |
| `Streams.WordsCons` | src/http/request.cpp:22-28 | a word after any white space is the first of the text's words |
| `Streams.NoWords` | src/http/request.cpp:22-28 | white space alone holds no word |
| `Streams.ParseSize` | src/http/common.cpp:164-169 | the digit loop accepts exactly non-empty all-digit strings below 2^64, returns the number they denote, and never leaves 64 bits |
| `Streams.DecimalDenotes` | src/http/request.cpp:52-53 | a printed size denotes that size |
| `Streams.OnlyDecimal` | src/http/request.cpp:52-53 | the printed form is the only digit string without a superfluous zero for its number |
| `Streams.ExtractPrinted` | src/http/response.cpp:22-26 | a printed 16-bit status code is extracted unchanged whatever follows it |
| `Streams.ExtractSigned` | src/http/response.cpp:22-26 | a plus sign is allowed, a minus sign counts down from 2^16, a number that does not fit is a failed extraction |
| `Streams.ExtractNothing` | src/http/response.cpp:22-26 | text that starts with neither digit, sign nor white space is no number |
| `Headers.ParseIsFold` | src/http/common.cpp:127-153 | the parsing loop is a fold over the lines before the first blank one |
| `Headers.LookupFindsLastLine` | src/http/common.cpp:117-153 | looking a name up in a parsed block gives the trimmed value on the last line naming it, or nothing |
| `Headers.LookupIgnoresCaseAndPadding` | src/http/common.cpp:107-125 | lookup gives one answer for every casing and padding of a name |
| `Headers.SetIsSeenIff` | src/http/common.cpp:97-125 | a stored value is seen under every spelling of its name and under no other name |
| `Headers.ParsedBlockPrintable` | src/http/common.cpp:127-153 | every key the parser stores is normalised and colon-free, every value trimmed, none has an LF, for any bytes |
| `Headers.BlockExtends` | src/http/common.cpp:133-139 | text after the blank line is left unread and does not change the map |
| `Headers.BlockAlone` | src/http/common.cpp:133-139 | the text up to the blank line parses alone to the same map |
| `Headers.StopsByDelimiter` | src/http/common.cpp:133-139 | the blank-line loop never reads past a CRLF CRLF, and stops exactly at its end iff no earlier line is blank |
| `Headers.CrlfOnlyHasNoEarlyBlank` | src/http/session.hpp:142-155 | when every LF up to the first CRLF CRLF follows a CR, no line before it is blank |
| `Headers.ContentLengthExact` | src/http/common.cpp:155-175 | the length is n iff the header is absent and n is 0, or it is a non-empty digit string denoting n below 2^64 |
| `Headers.PrintedLengthReadsBack` | src/http/request.cpp:52-53 | a printed body size is accepted and read back |
| `Headers.ComputeContentLength` | src/http/common.cpp:155-175 | the imperative computation equals the specification, error case included |
| `Headers.HeaderTable.Set` | src/http/common.cpp:97-105 | assignment through operator[] stores the value under the normalised key; every differently spelled name looks up what it did before |
| `Headers.HeaderTable.SetFromLine` | src/http/common.cpp:141-149 | a line is split at its first colon; a line without one changes nothing |
| `Headers.ParseHeaders` | src/http/common.cpp:127-153 | the loop over the stream yields the specified map and leaves the specified rest |
| `Codec.MethodToString` | src/http/common.cpp:12-52 | a printed method parses back to itself, UNKNOWN included |
| `Codec.MethodNames` | src/http/common.cpp:12-52 | the seven method names, and every other name is unknown |
| `Codec.ReasonPhrases` | src/http/common.cpp:54-98 | the reason phrases of the known status codes |
| `Codec.OtherPhrases` | src/http/common.cpp:54-98 | every other code is printed as unknown |
| `Codec.ParseFrom` | src/http/request.cpp:67-81 | parsing a stream gives the specified message or error and says what is left in the stream |
| `Codec.TokensAreWords` | src/http/request.cpp:22-28 | three space-free words separated by blanks parse to method, path and version |
| `Codec.RequestLineIsThreeWords` | src/http/request.cpp:10-29 | a request line parses iff it has three words; they are method, path and version, and more is ignored |
| `Codec.StatusWords` | src/http/response.cpp:22-26 | a printed status line parses to its version and code |
| `Codec.StatusLineIff` | src/http/response.cpp:10-29 | a status line parses iff it starts with a word and a number that fits 16 bits |
| `Codec.ParsesIff` | src/http/request.cpp:67-81 | a message parses iff its start line does: no header block and no body is refused |
| `Codec.PrintRequestHeaders` | src/http/request.cpp:36-47 | the printing loop writes one line per header in walking order, and its flags say whether a lower-cased key is present |
| `Codec.PrintRequest` | src/http/request.cpp:31-60 | the printer's text is the specified one, for every iteration order |
| `Codec.RequestText` | src/http/request.cpp:31-60 | the whole text of a printed request, with the exact condition for each default line |
| `Codec.PrintResponseHeaders` | src/http/response.cpp:37-46 | the printing loop writes one line per header, and its flags say whether the mixed-case key itself is present |
| `Codec.PrintResponse` | src/http/response.cpp:31-55 | the printer's text is the specified one, for every iteration order |
| `Codec.ResponseText` | src/http/response.cpp:31-55 | the whole text of a printed response, with the exact condition for each default line |
| `RoundTrip.BlockOfLines` | src/http/common.cpp:133-150 | printed plain lines and a blank line parse to the fold of the lines, with the body left over |
| `RoundTrip.TextReadsBack` | src/http/request.cpp:31-81 | a message with any stored key casing reads back with normalised names and trimmed values, later lines winning |
| `RoundTrip.ReadsBack` | src/http/request.cpp:31-81 | parse(serialize(r)) is r plus exactly its default headers, for every iteration order and all body bytes, requests and responses |
| `RoundTrip.ParsedIsWellFormed` | src/http/request.cpp:10-29 | any bytes that parse give a message that meets the round-trip precondition |
| `RoundTrip.NormalFormIdempotent` | src/http/request.cpp:31-81 | parse after serialize is a normal form: doing it again in any order changes nothing |
| `RoundTrip.ResponseReadsBackIff` | src/http/response.cpp:37-51 | a response reads back as itself iff it already carries connection close and its exact body length |
| `RoundTrip.KeepAliveIsLost` | src/http/response.cpp:44-51 | a concrete keep-alive response that does not read back |
| `RoundTrip.IntendedResponseReadsBack` | src/http/response.cpp:37-51 | with request-style lower-casing explicit headers survive and only missing ones are added |
| `RoundTrip.TypedReadsBack` | src/http/response.cpp:70-90 | a typed response reads back with the given code, media type, length and body, and connection close |
| `RoundTrip.FactoriesReadBack` | src/http/response.cpp:62-90 | what simple, text and json build reads back as the messages spelled out: version, given code, headers and body |
| `RoundTrip.DelimiterOfLines` | src/http/session.hpp:142-155 | the first CRLF CRLF of printed lines is the one that closes them |
| `RoundTrip.PrintedHeadEndsAtDelimiter` | src/http/request.cpp:34-57 | a printed message is head plus body, and the only CRLF CRLF of the head is its end and the first of the text |
| `Segments.SegmentsAgree` | src/http/session.hpp:122-190 | a stream divides into segments of a prefix-free relation in one way only, item by item |
| `Framing.MoreTextIsMoreBody` | src/http/request.cpp:67-81 | appending text to a framed message only appends to its body |
| `Framing.WholePrefixIsUnique` | src/http/session.hpp:164-190 | a stream starts with at most one whole message |
| `Framing.DelimiterFrames` | src/http/session.hpp:142-155 | once the start line parses, the parser's head ends at or before the searched delimiter, and exactly there iff no earlier line is blank |
| `Framing.CrlfHeadStopsAtDelimiter` | src/http/session.hpp:142-155 | when all line breaks of the head are CRLF the two delimiters agree |
| `Framing.PrintedIsWhole` | src/http/request.cpp:31-60 | a printed message is whole if an explicit request Content-Length is right; a printed response always is |
| `Session.OnParsedKeeps` | src/http/session.hpp:170-190 | the size checks start a body read that fits the emptied buffer, or deliver a message with exactly its Content-Length |
| `Session.StepKeeps` | src/http/session.hpp:122-240 | every completion keeps the buffer, remaining-read and timer bounds and delivers only complete messages within the limit |
| `Session.FiredTimerCloses` | src/http/session.hpp:222-233 | a timer handler that runs has closed the session and reports a timeout; buffer and operation are untouched |
| `Session.Connection.constructor` | src/http/session.hpp:58-64 | a new session is open and idle with an empty buffer |
| `Session.Connection.Close` | src/http/session.hpp:77-86 | shutdown cancels the timer and closes, leaving queued completions to arrive |
| `Session.Connection.Read` | src/http/session.hpp:95-101 | a read cycle starts with a fresh timer |
| `Session.Connection.Write` | src/http/session.hpp:104-119 | a write starts with a fresh timer |
| `Session.Connection.HeadersRead` | src/http/session.hpp:122-197 | delimiter search, head limit, parse and drain, each with its error, equal the specification |
| `Session.Connection.SizeChecked` | src/http/session.hpp:170-190 | Content-Length checks and the start of the remaining read equal the specification |
| `Session.Connection.BodyRead` | src/http/session.hpp:208-220 | the buffered bytes are appended to the body and the buffer emptied |
| `Session.Connection.Received` | src/http/session.hpp:95-101 | a chunk ends the read-until on a delimiter or a full buffer, and the exact read on its last byte or a full buffer |
| `Session.Connection.Completed` | src/http/session.hpp:104-240 | every socket or timer completion changes the state and ends in the hook the specification says |
| `Chunking.FeedBody` | src/http/session.hpp:199-220 | however the missing bytes are split they are appended in order, counted exactly, and the read is never cut short |
| `Chunking.DeliveredIsOneShotParse` | src/http/session.hpp:122-220 | a delivered message is the one-shot parse of exactly the bytes taken, a whole message with its head within max_header_size and its body within max_body_size |
| `Chunking.PlayFeeds` | src/http/session.hpp:222-240 | timer waits that expire and timer handlers that fire between chunks change nothing in what a read cycle makes of them |
| `Chunking.ChunkingIndependence` | src/http/session.hpp:122-240 | two read cycles over one stream, chunked in any two ways and with any timer events in between, that deliver deliver the same message and consume the same bytes |
| `Chunking.FeedAcceptable` | src/http/session.hpp:122-220 | a cycle over an acceptable message waits while bytes are missing, delivers on its last byte, and rejects exactly on over-read |
| `Chunking.DeliversIffAcceptable` | src/http/session.hpp:122-220 | whatever the bytes, a finished cycle delivers iff those it read are exactly one acceptable message |
| `Chunking.FinishedCycleDeliversIff` | src/http/session.hpp:178-190 | over a stream that starts with an acceptable message, a finished cycle delivers iff no chunk ran past it |
| `Chunking.OverReadIsRejected` | src/http/session.hpp:178-190 | an acceptable message with anything more in its chunk is rejected |
| `Chunking.FailureIsExplained` | src/http/session.hpp:130-196 | in any chunking, a failed cycle reports a message size error iff the bytes taken break a size limit, else an invalid argument |
| `Chunking.RefusedLeaves` | src/http/session.hpp:142-196 | what a refused head leaves in the buffer |
| `Chunking.EverySplitIsLegal` | src/http/session.hpp:95-101 | any split of an acceptable message into non-empty chunks is one the session's own reads can produce |
| `Chunking.EveryChunkingDelivers` | src/http/session.hpp:122-220 | every chunking of an acceptable message delivers its parse and leaves the session idle with an empty buffer |
| `Server.EveryRunIsSafe` | src/http/server.cpp:25-62 | over all interleavings reads, handler calls and writes alternate, only whole requests are handled, each gets its own answer with the right announcement, nothing follows an announced close, and idle means closed |
| `Server.NothingAfterClose` | src/http/server.cpp:34-57 | every handled request is answered; after one whose connection header says close, or a handler exception, close is announced and nothing more is ever read, after any other keep-alive is announced |
| `Server.ServerStepKeeps` | src/http/server.cpp:32-62 | one event keeps those invariants, the answer to a handler exception included |
| `Server.StartIsSafe` | src/http/server.cpp:25-28 | a started server satisfies them and is ready to receive |
| `Server.KeepsAliveIff` | src/http/server.cpp:34-35 | a request is kept alive iff it carries no connection header that says exactly close |
| `Server.HookAnswers` | src/http/server.cpp:37-47 | the response is the handler's own, announcing close iff the request's connection header says close, or the spelled-out 500 page, which announces close |
| `Server.RunFeeds` | src/http/session.hpp:122-220 | receiving the chunks of a cycle in a server run is feeding them and then running the hook |
| `Server.HealthIsPrinted` | src/server.cpp:9-13 | a concrete printed request meets the end-to-end conditions under the default limits |
| `Server.KeptExchange` | src/http/server.cpp:32-57 | a request whose header does not say close is answered with keep-alive and followed by a new read on the same connection |
| `Server.BareRequestIsKept` | src/http/server.cpp:32-57 | a concrete request without a connection header is answered with keep-alive and followed by a new read |
| `Server.PipelinedPairIsRejected` | src/http/session.hpp:178-190 | two concrete requests in one chunk end in an error, not even the first is delivered |
| `Server.AnswerIsWellFormed` | src/http/server.cpp:37-47 | the response is printable whenever the handler's is, and always when the handler threw |
| `Server.EndToEnd` | src/http/server.cpp:32-57 | an acceptable request, however written and in any chunking, reaches the handler once as it parses, is answered, and leaves the connection ready or closed as its own header says |
| `Server.PrintedEndToEnd` | src/http/request.cpp:31-81 | a well-formed printed request reaches the handler once, as sent plus its default headers |
| `Server.KeepAliveRun` | src/http/server.cpp:32-57 | n successive requests on one connection end in the state the n exchanges describe |
| `Server.HandlerSeesEachOnce` | src/http/server.cpp:32-57 | the handler sees each of n successive requests exactly once, in order, as its text parses |
| `Server.RequestsAreTheStream` | src/http/session.hpp:122-240 | over every run, whatever timers, failures and handler do, the bytes received are the handled requests, one acceptable message each and in order, and an unfinished rest |
| `Server.SameStreamSameRequests` | src/http/session.hpp:122-240 | two servers receiving one byte stream hand the same k-th request to their handlers, however chunks, timers, answers and failures differ |
| `Server.ServerSession.constructor` | src/http/server.cpp:20-28 | creating and starting a session starts the first read |
| `Server.ServerSession.MessageParsed` | src/http/server.cpp:32-49 | the handler hook sets the choice, the header and the response as specified, and the wire text is that response printed in some order |
| `Server.ServerSession.WriteComplete` | src/http/server.cpp:51-57 | after a write the session reads again or closes, as chosen |
| `Server.ServerSession.Handle` | src/http/server.cpp:32-62 | every completion takes the server to the specified state |
| `Client.EveryRunBalances` | src/http/client.cpp:85-128 | over all interleavings the calls made, then the stored callback, are the callbacks passed in, in order; closed means none stored, open with one stored means one timed operation in flight |
| `Client.ClientStepKeeps` | src/http/client.cpp:85-128 | one request or completion keeps those invariants |
| `Client.QuietMeansAllCalled` | src/http/client.cpp:105-128 | with nothing in flight, or once closed, every callback has been called exactly once, in request order |
| `Client.NeverCalledTwice` | src/http/client.cpp:105-128 | no callback is called twice at any moment |
| `Client.TimeoutAnswers` | src/http/session.hpp:222-233 | a stored callback always has a timer behind it, which alone answers it and closes |
| `Client.ResponseIsHeard` | src/http/client.cpp:105-114 | a message that ends the read is what the stored callback hears, and sets the keep-alive choice from its own header |
| `Client.FailureIsHeard` | src/http/client.cpp:121-128 | the error a step ends in is what the stored callback hears, and the session closes |
| `Client.ClosedIsHeard` | src/http/client.cpp:85-92 | a request on a closed session hears not connected and changes nothing else |
| `Client.EveryCallIsCaused` | src/http/client.cpp:85-128 | over every run the callbacks hear exactly what their own completions ended in, in order |
| `Client.BrokenIsHeard` | src/http/client.cpp:121-128 | a broken socket is heard as such |
| `Client.RefusalIsHeard` | src/http/session.hpp:130-196 | a refused response, in any chunking, is heard as message size iff its bytes break a limit, else as invalid argument |
| `Client.OversizedBodyIsHeard` | src/http/session.hpp:170-177 | a Content-Length above the limit is heard as a message size error |
| `Client.ConnectedFits` | src/http/client.cpp:25-28 | a connected client satisfies the invariants |
| `Client.ResponseArrives` | src/http/client.cpp:105-114 | any printed response within limits, in any chunking, reaches the stored callback once as its defaults make it read |
| `Client.ServerAlwaysReadsAsClosing` | src/http/server.cpp:47 | every printed server response, in any header order, parses to one that reads as closing, although it announces close iff keep-alive was refused |
| `Client.AddDefaults` | src/http/client.cpp:94-97 | the two in-place insertions add exactly the missing default headers |
| `Client.DefaultsFillIn` | src/http/client.cpp:94-97 | afterwards host and connection are there, every stored entry is unchanged, and nothing else was added |
| `Client.DefaultsStayPrintable` | src/http/client.cpp:94-97 | a printable request stays printable and both headers are found by lookup |
| `Client.TalkIsAnswered` | src/http/client.cpp:85-114 | the text of a request's answer, in any chunking, reaches that request's callback once, on a client ready to ask |
| `Client.ConversationIsAnswered` | src/http/client.cpp:85-114 | client and server together: over n requests the handler sees each once in order with both sides' defaults, and each callback hears once, in order, the answer to its own request |
| `Client.ClientSession.constructor` | src/http/client.cpp:25-28 | a new client session has no stored callback |
| `Client.ClientSession.SendRequest` | src/http/client.cpp:85-101 | a request on a closed session is answered at once; otherwise its callback is stored and its text written |
| `Client.ClientSession.MessageParsed` | src/http/client.cpp:105-114 | a response sets the keep-alive choice, clears the slot and calls the callback with it |
| `Client.ClientSession.Fail` | src/http/client.cpp:121-128 | an error clears the slot, shuts down and calls the callback with it |
| `Client.ClientSession.Handle` | src/http/client.cpp:105-128 | every completion takes the client to the specified state |
| `NameNode.RunKeepsNamesAndCount` | src/dfs/name_node.cpp:7-64 | after any run every entry is stored under its own path and the count is creations less deletions |
| `NameNode.EntrySurvivesRun` | src/dfs/name_node.cpp:42-64 | over any run an undeleted entry keeps kind, size, creation time, blocks and attributes wherever renames take it |
| `NameNode.EntriesStayApart` | src/dfs/name_node.cpp:7-64 | two entries never end up under one path |
| `NameNode.RenameBack` | src/dfs/name_node.cpp:42-64 | renaming there and back restores the namespace up to the modification time |
| `NameNode.ListedIff` | src/dfs/name_node.cpp:79-103 | a directory lists exactly the other paths whose part up to the last slash is its prefix |
| `NameNode.ListingIsExact` | src/dfs/name_node.cpp:90-100 | for any walking order the listing has exactly the direct children's suffixes, once each |
| `NameNode.ListingsPartition` | src/dfs/name_node.cpp:79-103 | a path with a slash and not ending in one is listed by one directory only, up to that directory's trailing slash |
| `NameNode.CutIsTopK` | src/dfs/name_node.cpp:124-133 | cutting a sorted permutation leaves min(k, live) live nodes, sorted, with no left-out node having more free space |
| `NameNode.TopKByTrueSpace` | src/dfs/name_node.cpp:124-133 | with used space within capacity on every live node, the selection is a top-k by true free space |
| `NameNode.RanksTrulyIff` | src/dfs/name_node.cpp:124-133 | every possible selection of any size is a top-k by true free space iff no live over-full node wraps past a live one within its capacity, a condition on their capacities and used space |
| `NameNode.OverfullIsChosen` | src/dfs/name_node.cpp:124-133 | a concrete selection that takes an over-full node and leaves an empty one out |
| `NameNode.LiveIsExact` | src/dfs/name_node.cpp:115-122 | in whatever order the table is walked, a node is a candidate as often as live names store it |
| `NameNode.SortByFree` | src/dfs/name_node.cpp:124-126 | sorting gives a permutation in descending free space |
| `NameNode.NameNode.CreateFile` | src/dfs/name_node.cpp:7-25 | creation succeeds iff the path is free, and then adds one empty entry |
| `NameNode.NameNode.DeleteFile` | src/dfs/name_node.cpp:27-40 | deletion succeeds iff the path exists, and then removes that entry only |
| `NameNode.NameNode.RenameFile` | src/dfs/name_node.cpp:42-64 | renaming succeeds iff the source exists and the target is free, and then moves the entry |
| `NameNode.FoundIffCreated` | src/dfs/name_node.cpp:7-77 | after any run from the empty namespace, looking a path up finds an entry exactly when an operation of the run created it or what was renamed to it, under that path and with that operation's kind and time |
| `NameNode.CreateAfterRun` | src/dfs/name_node.cpp:7-25 | after any run a creation succeeds iff nothing is found under the path, and then exactly an empty entry is found there |
| `NameNode.DeleteAfterRun` | src/dfs/name_node.cpp:27-40 | after any run a deletion succeeds iff an entry of either kind is found, which is then not found, all others unchanged |
| `NameNode.RenameAfterRun` | src/dfs/name_node.cpp:42-64 | after any run a renaming succeeds iff the source is found and the target is not, and moves exactly that entry |
| `NameNode.CopyAfterRun` | src/fs/distributed_file_system.cpp:115-132 | after any run a copy succeeds under the same condition, keeps the source and adds exactly an empty entry of its kind |
| `NameNode.NameNode.ListDirectory` | src/dfs/name_node.cpp:79-103 | the returned names are exactly the direct children, once each |
| `NameNode.NameNode.SelectDataNodesForWrite` | src/dfs/name_node.cpp:105-134 | the selection is a top-k of the live nodes, k being the count or the replication factor for 0 |
| `NameNode.NameNode.RegisterDataNode` | src/dfs/name_node.cpp:136-140 | the node is stored under its name and nothing else changes |
| `NameNode.NameNode.UpdateHeartbeat` | src/dfs/name_node.cpp:142-152 | a known node becomes live with the new time; an unknown one changes nothing |
| `NameNode.CopyFile` | src/fs/distributed_file_system.cpp:115-132 | a copy creates an empty entry of the source's kind iff the source exists and the target is free |
| `PathLocks.EveryInterleavingFits` | src/fs/distributed_file_system.cpp:192-217 | over every interleaving the table mutex has one holder, each path one owner, and a path is locked exactly while owned |
| `PathLocks.MutualExclusion` | src/fs/distributed_file_system.cpp:192-217 | no two threads hold one path |
| `PathLocks.BlocksIffHeld` | src/fs/distributed_file_system.cpp:192-205 | a lock call that gets the table blocks on the path iff some thread holds it |
| `PathLocks.RunBlocksIffLocksHeld` | src/fs/distributed_file_system.cpp:192-217 | a whole run ends with a thread blocked on a path mutex iff one of its lock calls took the table while its path was held |
| `PathLocks.StuckForever` | src/fs/distributed_file_system.cpp:192-217 | once a thread waits on a held path no lock and no release ever returns again |
| `PathLocks.AdvancesIffNotStuck` | src/fs/distributed_file_system.cpp:192-217 | while a call is in progress, some call can advance iff no thread waits on a held path |
| `PathLocks.WaiterNeverProceeds` | src/fs/distributed_file_system.cpp:192-217 | a concrete run after which the waiter stays blocked although the holder called release |
| `PathLocks.FreeLockCompletes` | src/fs/distributed_file_system.cpp:192-205 | a lock of a path nobody holds goes through and leaves exactly the stated table |
| `PathLocks.HolderReleases` | src/fs/distributed_file_system.cpp:207-217 | a release by the holder goes through and leaves exactly the stated table |
| `PathLocks.PathIsHandedOn` | src/fs/distributed_file_system.cpp:192-217 | after one thread has locked and released a path, another thread's lock of it completes |

## Left out

- Sockets, resolving, accepting and connecting: the model starts from a connected session and replaces the socket layer by events.
- `server::route` and `server::dispatch`: a table lookup; the handler's answer is an arbitrary choice.
- Several requests outstanding on one client session: a new request replaces the stored callback; the model requires the user to wait.
- Callbacks and handlers that throw something other than a standard exception, and callbacks that throw at all.
- PathLocks.MutualExclusion: for runs in which only holders release, because releasing a mutex one does not hold is undefined behaviour in C++.
- A thread that locks a path it already holds: undefined for a C++ mutex; in the model it blocks like any other waiter.
- Lock modes: the shared flag is ignored by the code as well.
- `headers_t::remaining`, `request::remaining` and `response::remaining`: not used by the sessions.
- `open`, `size`, `is_exists`, `is_directory`, local copies and block transfer of the distributed file system: lookups or unfinished stubs.
- The local file system, the file system provider, configuration, JSON fields, logging and command line: thin wrappers over libraries with easy properties only.
- Object lifetimes and shared ownership, and aliasing of the pointer that `get_metadata` returns: entries are values.
- Clock values, except as opaque parameters.
