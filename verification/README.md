# webserv verified

A model of a poll-based HTTP/1.1 server written in C++98, and proofs about it. It covers the
incremental body decoders, the event loop with its poll array, the virtual-host table, the
configuration language, routing, path resolution, and the streaming of responses.

Every part has three layers. A specification says what is computed, as functions on values. The
imperative code - classes with the source's fields, loops with its branches - is proved to compute
it. Lemmas state what the specification is for: that cuts of a stream do not matter, that a round
trip gives back what went in, that an invariant holds after every run.

| files | subject |
|---|---|
| Bytes, Hex | substring search, numbers in base 16 |
| Chunked, ChunkedSplit, ChunkedRoundTrip, ChunkedOverrun, ChunkedVerdict, ChunkedParser | the chunked transfer coding |
| Multipart, MultipartSplit, MultipartMessage, MultipartExact, MultipartVerdict, MultipartParser | the multipart splitter |
| Handoff, Upload, UploadClient, MultipartUpload, MultipartClient | from the socket to the decoders |
| VirtualHosts, ListenSockets | listen directives and their sockets |
| PollFds, PollLayout, LifeCycle, PollArray, Turns, TurnLife, Timeouts, Reports, EventLoop, Os, Startup | the event loop |
| Lexing, ConfigLexer | the configuration lexer |
| ConfigValues, ConfigGrammar, ConfigReader, ConfigRoundTrip, ConfigMeaning, ConfigLimits, ConfigBounds, ConfigPrint, ConfigPrintFile, ConfigAccepted, ConfigText, ConfigReprint, ConfigParser, GetConfig | the configuration language |
| Routing, Paths, Sources, RequestSource, UrlCoding, Query | request targets |
| Ranges, Streaming, ResponseSender | responses |

`dafny verify dfyconfig.toml` checks everything.

## What the proofs found

- The size check of the chunked decoder adds two 64-bit numbers and may wrap around. A stream that
  makes it do so can store a different number of bytes for different cuts. `OutputIndependentIff`
  says which streams do, `OverrunExample` is one, and no stream does whose size lines announce
  less than 2^64 less the limit (`SmallSizesSplit`).
- A multipart message fails when a cut falls at the end of a delimiter or one byte behind it, or one
  byte before the end of a delimiter that ends a body. `RunOverPieces` shows that these are exactly
  the cuts that fail, `CutExample` is one, and `UploadInBlocks` says it of the blocks a request is
  received in.
- `fetchPathList` looks for a semicolon only. An `index` directive without one reads past the
  tokens; `PastEndIff` says of which files.
- `getSource` replaces every occurrence of the location in the path, not only the one in front. The
  others are there, and the path is another one, exactly when the rest of the path contains the
  location again (`FrontAloneIff`, `ComesAgain`).
- A path with more `..` than names in front of them leaves the root of its location (`ClimbsOut`);
  `SourceStaysIff` says which paths do.
- The comment in `getClientReqCGI` is right: its fallback cannot be reached for a polled pipe.
- What is left in the send buffer in the turn that ends a response is dropped (`LostTail`,
  `CompleteIff`), and a response in memory with a body is sent twice (`InMemoryTwice`, `OnceIff`).
- The headers of a range would be sent for ever if they filled a chunk (`RangeEndsIff`); those that
  the server writes are a few lines long.
- On an empty file `bytes=-` is accepted as the range from 0 to -1 (`EmptyFileRange`).
- A timeout or a port is read by `atoi`, so that below the largest `long` the low 32 bits of a
  number count (`WrappedPort`, `WrappedTimeout`). An accepted one is in range exactly when it is
  below 2^32 (`PortInRangeIff`, `AcceptedTimeouts`); from the largest `long` on, `atoi` gives -1 and
  nothing is accepted.

## How the system is modelled

- Characters are bytes. `size_t` arithmetic that may wrap around is written out (`AddSize`).
- `write` takes every byte it is given. Descriptors given out by the system are not open.
- What the system has to report to `poll` is a parameter of a turn. POLLIN and POLLOUT come through
  only where they are asked for; POLLHUP, POLLERR and POLLNVAL may be reported of any entry.
- `strtol` saturates and `atoi` is its low 32 bits, as in the GNU C library.
- What the request handler, the script and `send` do to a client is any of the results the code
  distinguishes, chosen freely in every turn.
- `std::set` and `std::map` are sets and maps; where their order shows, the statement holds for
  every order.

## Model

| member | source | states |
|---|---|---|
| ChunkedSplit.SplitIndependence | webserv/sources/request/ChunkedParser.cpp:21-142 | Every byte stream, cut into any pieces, ends with the same result, state, buffer, counters and output as one `feed` of the whole; after a failure the same first ERROR or MAXERROR, counters and output, except where a data step passed the limit |
| ChunkedOverrun.OutputIndependentIff | webserv/sources/request/ChunkedParser.cpp:21-142 | The stored output of a body is the same for all splits if and only if the body is not complete chunks within the limit, then a size line whose size wraps the check around, with enough bytes behind it to pass the limit by two |
| ChunkedOverrun.StopsOverIff | webserv/sources/request/ChunkedParser.cpp:78-115 | From any state before a size line, the decoder stops more than so many bytes over the limit exactly on such streams |
| ChunkedOverrun.SmallSizesSplit | webserv/sources/request/ChunkedParser.cpp:78-81 | When no line of a stream announces a size of 2^64 less the limit or more, every split has the outcome of one feed |
| ChunkedOverrun.SplitsAreSameIff | webserv/sources/request/ChunkedParser.cpp:21-142 | Every split of a body has the outcome of one feed, up to the bytes left in the buffer after a failure, if and only if the body is not one of those streams that pass the limit by two |
| ChunkedSplit.OutputIndependence | webserv/sources/request/ChunkedParser.cpp:78-115 | From any waiting state: the output is the same for all splits exactly when one feed does not write two or more bytes past the limit |
| ChunkedSplit.OverLimitMeansWrap | webserv/sources/request/ChunkedParser.cpp:78-81 | The limit is passed in the middle of a chunk only when adding the chunk size to the total wrapped around 2^64 |
| ChunkedSplit.BytewiseStopsAtOnce | webserv/sources/request/ChunkedParser.cpp:105-115 | Fed byte by byte, the decoder never takes more than one byte past the limit |
| ChunkedSplit.LoopExtend | webserv/sources/request/ChunkedParser.cpp:27-61 | Stopping for more bytes and going on is the same as having had the bytes from the start |
| ChunkedOverrun.OverrunExample | webserv/sources/request/ChunkedParser.cpp:78-81 | A concrete body on which one feed stores three bytes and a bytewise run at most two, because the size check wraps around |
| ChunkedRoundTrip.RoundTrip | webserv/sources/request/ChunkedParser.cpp:64-142 | The encoding of non-empty chunks within the limit, in any split, completes; the output is their concatenation and later bytes stay in the buffer (section 7.1 of RFC 9112) |
| ChunkedRoundTrip.DecodeEncoded | webserv/sources/request/ChunkedParser.cpp:64-142 | One run over an encoded body from any state between chunks gives the chunks in order |
| ChunkedVerdict.CompleteIff | webserv/sources/request/ChunkedParser.cpp:64-142 | A body cut in any way is complete if and only if it is complete chunks within the limit, then a line with size zero, then a line end |
| ChunkedVerdict.ResultIff | webserv/sources/request/ChunkedParser.cpp:64-142 | A body cut in any way is complete, an ERROR or a MAXERROR if and only if it is complete chunks and then an ending of that kind: the last chunk; a line without a size or data without its line end; a size over the limit or one that wraps the sum around |
| ChunkedVerdict.TooLargeIsMaxError | webserv/sources/request/ChunkedParser.cpp:78-81 | When the next size would pass the limit, the body is a MAXERROR in every split, and exactly the chunks before it are stored |
| ChunkedVerdict.MalformedIsError | webserv/sources/request/ChunkedParser.cpp:75-76 | A line that no size can be read from, or data that no line end follows, is an ERROR in every split, and what was stored is exactly the chunks before it, and that data |
| ChunkedVerdict.EndingDecides | webserv/sources/request/ChunkedParser.cpp:64-142 | From any state between chunks: chunks and an ending decide the result, the stored bytes and what stays in the buffer |
| Chunked.AddSizeIs | webserv/sources/request/ChunkedParser.cpp:78 | The checked sum is the one modulo 2^64 |
| Chunked.ParseSizeIs | webserv/sources/request/ChunkedParser.cpp:73-76 | A size line is read as the value of its digits when that is below 2^64, and with a minus sign as what that lacks to 2^64; from 2^64 on it is refused |
| Hex.ExtractIs | webserv/sources/request/ChunkedParser.cpp:73-76 | Reading a number skips whitespace and takes a sign, `0x` and all digits up to the first that is none; the value is that of the digits |
| Hex.NothingToExtract | webserv/sources/request/ChunkedParser.cpp:75-76 | Without a digit behind whitespace, sign and prefix no number is read |
| Hex.ValueGrows | webserv/sources/request/ChunkedParser.cpp:73-76 | A digit at the end makes a number sixteen times itself and the digit |
| Hex.DigitsAre | webserv/sources/request/ChunkedParser.cpp:73-76 | The digits are 0 to 9 and a to f in both cases, with their values, and no other character is one |
| Chunked.StepDecreases | webserv/sources/request/ChunkedParser.cpp:27-59 | Every pass of the loop that goes round again consumes bytes, or moves from the data phase to a lower one: the loop ends |
| Chunked.LoopIsQuiet | webserv/sources/request/ChunkedParser.cpp:51-61 | `feed` returns without failure only when no further step can change anything, with COMPLETE exactly in the last state |
| Chunked.Step | webserv/sources/request/ChunkedParser.cpp:64-142 | Every pass keeps the byte counter equal to the output's length; one that does not fail keeps the counters within their limits |
| ChunkedStream.ChunkedParser.Init | webserv/sources/request/ChunkedParser.cpp:9-19 | The parser starts with an empty buffer and zero counters |
| ChunkedStream.ChunkedParser.Feed | webserv/sources/request/ChunkedParser.cpp:21-62 | The imperative loop on the fields leaves exactly the state and result of the specification; an inactive or failed parser answers ERROR and changes nothing |
| ChunkedStream.ChunkedParser.ProcessChunkSize | webserv/sources/request/ChunkedParser.cpp:64-85 | The size line is taken from the buffer, the wrapping sum is checked, and the state moves on; which lines are refused and how is said by `TooLargeIsMaxError` and `MalformedIsError` |
| ChunkedStream.ChunkedParser.ProcessChunkData | webserv/sources/request/ChunkedParser.cpp:87-124 | At most the rest of the chunk is written, counted and erased |
| ChunkedStream.ChunkedParser.ProcessChunkEnd | webserv/sources/request/ChunkedParser.cpp:126-142 | The line end is required; a chunk of size zero ends the body |
| MultipartSplit.SplitRefinement | webserv/sources/request/multipartParser.cpp:30-184 | A run over any split within the size limit that meets no ERROR ends in the state, held-back buffer and parts of one single feed |
| MultipartSplit.LoopExtend | webserv/sources/request/multipartParser.cpp:41-71 | Stopping for more bytes and going on is the same as having had them, unless the line break before a delimiter was lost |
| MultipartSplit.BreakLostFails | webserv/sources/request/multipartParser.cpp:157-183 | A line break that was flushed before its delimiter was complete makes the next feed fail |
| MultipartSplit.FlushTwice | webserv/sources/request/multipartParser.cpp:156-166 | Flushing all but the boundary's length twice writes the same bytes as flushing once, so that holding back never loses or repeats a byte |
| MultipartMessage.DecodeWhole | webserv/sources/request/multipartParser.cpp:74-184 | One feed of an encoded list of parts returns COMPLETE, and the stored parts are exactly the parts in order (section 5.1.1 of RFC 2046) |
| MultipartMessage.RunOverPieces | webserv/sources/request/multipartParser.cpp:88-91 | A well-formed message in pieces completes with exactly its parts, unless a cut falls at a delimiter's end, one byte behind it, or one byte before the end of a delimiter that ends a body; it fails exactly when some cut does |
| MultipartMessage.CutFails | webserv/sources/request/multipartParser.cpp:88-91 | A run over a prefix of a message ends with ERROR exactly when the cut comes at a delimiter's end or one byte behind it |
| MultipartMessage.CutLoses | webserv/sources/request/multipartParser.cpp:157-164 | What was kept back loses the line break exactly when the cut comes one byte before a delimiter's end |
| MultipartMessage.CutsDecide | webserv/sources/request/multipartParser.cpp:30-184 | Over all pieces, success is decided by the cuts alone |
| MultipartExact.RoundTripExactly | webserv/sources/request/multipartParser.cpp:100-184 | A list of parts survives encoding and one feed if and only if its headers are free of an early blank line and its bodies of the delimiter |
| MultipartExact.HeaderOkMeans | webserv/sources/request/multipartParser.cpp:100-108 | Headers are told from the blank line behind them exactly when they have none inside and do not end with a line break |
| MultipartExact.RunClosesFirst | webserv/sources/request/multipartParser.cpp:169-180 | The first delimiter behind the headers closes the first part, whatever follows |
| MultipartExact.CutExample | webserv/sources/request/multipartParser.cpp:88-91 | A message of 18 bytes that one feed decodes and that fails when it is cut behind its first delimiter |
| MultipartVerdict.CompleteIff | webserv/sources/request/multipartParser.cpp:74-184 | One feed of a body within the limit is complete if and only if the body is a preamble without the delimiter, well-formed parts, the closing delimiter and anything behind it; then exactly those parts are stored |
| MultipartVerdict.ErrorIff | webserv/sources/request/multipartParser.cpp:30-184 | One feed is an ERROR if and only if the body is over the size limit, or is a preamble, well-formed parts, and then a delimiter with neither dashes nor a line break behind it or a body that does not end with a line break |
| MultipartVerdict.WithinLimit | webserv/sources/request/multipartParser.cpp:33-40 | A run over any pieces that meets no ERROR has taken no more than the limit, and counted every byte |
| Multipart.StepConsumes | webserv/sources/request/multipartParser.cpp:61-68 | Every pass of the loop that goes round again shortens the buffer: the loop ends |
| Multipart.LoopIsQuiet | webserv/sources/request/multipartParser.cpp:64-71 | `feed` returns without ERROR only when no further step can change anything |
| Multipart.ClosingHasBoundary | webserv/sources/request/multipartParser.cpp:76-80 | The second search can find nothing the first did not: the closing delimiter contains the boundary |
| MultipartStream.MultipartParser.Init | webserv/sources/request/multipartParser.cpp:8-28 | A header without a boundary parameter is an error and changes nothing else; otherwise the splitter starts afresh with the header's delimiter, which is that of `DelimiterIs`, and a file that is open stays open |
| MultipartStream.DelimiterIs | webserv/sources/request/multipartParser.cpp:9-15 | Whatever stands in front of the first `boundary=`, the delimiter is two dashes and all that stands behind it |
| MultipartStream.MultipartParser.Feed | webserv/sources/request/multipartParser.cpp:30-72 | The size check and the loop on the fields leave exactly the state and result of the specification |
| MultipartStream.MultipartParser.ProcessBoundary | webserv/sources/request/multipartParser.cpp:74-98 | The delimiter is erased, and the two bytes behind it decide between the end, the next headers and ERROR |
| MultipartStream.MultipartParser.ProcessPartHeaders | webserv/sources/request/multipartParser.cpp:100-149 | The headers up to the blank line are taken and a file is opened |
| MultipartStream.MultipartParser.ProcessPartBody | webserv/sources/request/multipartParser.cpp:151-184 | All but the boundary's length is flushed, or the body is closed before its line break |
| Upload.ReceivedInBlocks | webserv/sources/request/request.cpp:206-272 | However a stream is received, the decoder has been fed exactly what stands behind the first blank line, with the result of feeding it at once |
| Upload.BlocksDoNotMatter | webserv/sources/request/request.cpp:357-388 | Two connections receiving the same stream in different blocks come to the same result; the stored file is the same unless the body is complete chunks, a size line that wraps the limit check around, and two bytes more than the limit allows |
| Upload.HandleAgrees | webserv/sources/request/request.cpp:213-222 | One more received block keeps that agreement, before, at and behind the end of the headers |
| Handoff.BodyBehind | webserv/sources/request/request.cpp:217-222 | The body of a request is exactly what stands behind the first blank line |
| Upload.UploadResult | webserv/sources/request/request.cpp:206-388 | A request received in any blocks ends as complete, 400 or 413 exactly when what stands behind its blank line has an ending of that kind |
| Upload.UploadChunks | webserv/sources/request/request.cpp:206-388 | A request whose body is encoded chunks within the limit, received in any blocks, is complete with exactly those chunks stored |
| UploadHandling.UploadClient.RequestHandler | webserv/sources/request/request.cpp:206-272 | On the client's own fields: the bytes given to the parser are the body of everything received so far |
| UploadHandling.UploadClient.FeedLeftover | webserv/sources/request/request.cpp:357-388 | The parser takes what is left over; the result, the parser's state and the request's end are those of one feed |
| UploadHandling.Receive | webserv/sources/request/request.cpp:206-388 | Any sequence of blocks leaves the client in the progress the specification gives, and its parser in that state, output included |
| UploadHandling.ReceiveChunks | webserv/sources/request/request.cpp:206-388 | From the start of a client to its last block: a chunked upload leaves the client complete and the parser with exactly the chunks, whatever the blocks |
| MultipartUpload.UploadInBlocks | webserv/sources/request/request.cpp:206-356 | A multipart upload received in blocks, headers included, is over with its last block; it fails if and only if some block ends where the splitter does not survive a cut, and otherwise gives exactly the parts |
| MultipartHandling.MultipartClient.RequestHandler | webserv/sources/request/request.cpp:206-356 | On the client's own fields: the parser gets the body behind the headers, and without a boundary the request is refused once its headers are there |
| MultipartHandling.MultipartClient.FeedLeftover | webserv/sources/request/request.cpp:345-356 | The parser takes what is left over, and the request ends with its result |
| MultipartHandling.Receive | webserv/sources/request/request.cpp:206-356 | Any sequence of blocks leaves client and parser in the progress the specification gives |
| MultipartHandling.ReceiveForm | webserv/sources/request/multipartParser.cpp:8-28 | From a header with `boundary=b` to the last block: parts written with the delimiter `--b` are stored exactly, unless a block ends where the splitter does not survive a cut; exactly then the client has an error |
| VirtualHosts.SameIsEquivalence | webserv/includes/serverHeader/SocketManager.hpp:71-90 | The comparison of listen entries, with its special cases for localhost, 127.0.0.1 and 0.0.0.0, is an equivalence relation |
| VirtualHosts.SameIsCanonical | webserv/includes/serverHeader/SocketManager.hpp:71-90 | Two entries are equal exactly when their ports and canonical addresses are |
| VirtualHosts.SameMeans | webserv/includes/serverHeader/SocketManager.hpp:71-90 | Two entries are equal exactly when the ports are, and the addresses are or are both among localhost, 127.0.0.1 and 0.0.0.0 |
| VirtualHosts.RepIsClass | webserv/sources/server/SocketManager.cpp:17-33 | Two entries have the same first equal entry exactly when they are equal |
| ListenSockets.SocketManager.SetTableOfListen | webserv/sources/server/SocketManager.cpp:39-60 | The table holds exactly the addresses of every server block, none bound |
| ListenSockets.SocketManager.HandleVirtualHost | webserv/sources/server/SocketManager.cpp:17-33 | Exactly the first entry of each class is left to bind, and the addresses are unchanged |
| ListenSockets.SocketManager.InitSockets | webserv/sources/server/SocketManager.cpp:62-102 | Two entries share a descriptor if and only if they are equal |
| ListenSockets.SocketManager.ShareSocket | webserv/sources/server/SocketManager.cpp:86-92 | The new socket is given to the whole class and to nobody else |
| ListenSockets.SocketManager.SetListenEvent | webserv/sources/server/SocketManager.cpp:106-118 | Exactly the listening sockets fill the poll array, in order, each waiting for POLLIN |
| ListenSockets.SocketManager.PortCounter | webserv/sources/server/SocketManager.cpp:444-452 | The count is the number of sockets, so that the array is filled exactly |
| ListenSockets.SocketManager.DetectServerBlock | webserv/sources/server/SocketManager.cpp:423-432 | The result is the entries that have the descriptor |
| ListenSockets.WholeClass | webserv/sources/server/SocketManager.cpp:423-432 | For an entry's own descriptor that is its whole class, which is never empty |
| ListenSockets.ListenFdsAreDistinct | webserv/sources/server/SocketManager.cpp:106-118 | No two listening sockets are the same descriptor |
| PollLayout.StepKeeps | webserv/sources/server/SocketManager.cpp:222-421 | Every step - accept, receive, script start, script event, disconnect, response, reuse - keeps the invariant: distinct descriptors, exactly the live pipes each with one owner, and the life cycle of every client |
| PollLayout.RunKeeps | webserv/sources/server/SocketManager.cpp:186-345 | The invariant holds after every sequence of steps |
| PollLayout.ReachableIsSafe | webserv/sources/server/SocketManager.cpp:186-345 | It holds in every reachable state |
| PollLayout.DisconnectKeeps | webserv/sources/server/server.cpp:110-140 | A client and its pipe go together |
| PollLayout.StartCgiKeeps | webserv/sources/server/SocketManager.cpp:352-378 | A started script adds one pipe with one owner; a client never has two |
| PollLayout.ReadPipeKeeps | webserv/sources/server/SocketManager.cpp:380-421 | A script's end returns its client to POLLOUT and removes its pipe |
| LifeCycle.RunIsLife | webserv/sources/server/SocketManager.cpp:222-421 | In every legal run, the steps about a connection that stays open are a life of their own: what may follow what, what its client is at the end, its time-out and the time from which it counts follow from these steps alone |
| LifeCycle.OutputIsSent | webserv/sources/server/SocketManager.cpp:279-297 | In every legal run: when a connection's script ends with a response of n bytes and the connection later waits for its next request, exactly n bytes were sent in between |
| LifeCycle.SentAndLeft | webserv/sources/server/SocketManager.cpp:279-297 | At any moment before that the bytes sent and those left make up the script's output |
| LifeCycle.LifeIsRun | webserv/sources/server/SocketManager.cpp:222-421 | Every such life can be led: the steps it allows make a legal run that comes to it |
| TurnLife.PolledIsExpected | webserv/sources/server/SocketManager.cpp:149-157 | What `poll` reports of a client's socket is what the socket waits for |
| TurnLife.TurnLeads | webserv/sources/server/SocketManager.cpp:222-345 | One turn of a client, by its life and what was reported for its socket: it goes on to one of the listed phases, with at most 4096 bytes of a script's output sent and its activity counted from now, or ends where the connection may |
| TurnLife.TurnCan | webserv/sources/server/SocketManager.cpp:222-345 | Each of these phases can be what a turn comes to |
| TurnLife.TurnCanGo | webserv/sources/server/SocketManager.cpp:222-345 | And each of these ends can happen |
| LifeCycle.EnabledIff | webserv/sources/server/SocketManager.cpp:222-421 | What a client's fields and its socket's mask allow to come next is exactly what its life allows |
| LifeCycle.AcceptIsBirth | webserv/sources/server/server.cpp:53-74 | A new client is at the beginning of such a life, and its time counts from its arrival |
| LifeCycle.ExpiresAfterActivity | webserv/sources/server/server.cpp:19-30 | A client times out exactly when its time-out has passed since its last activity: bytes received or sent, or the start of its script |
| PollArray.ShowsAccept | webserv/sources/server/server.cpp:53-74 | The client's entry inserted at the clients' end keeps the array laid out as listening sockets, clients in order, pipes |
| PollArray.ShowsDisconnect | webserv/sources/server/server.cpp:110-140 | Erasing the pipe and then the client's entry keeps the layout |
| PollArray.ShowsStartCgi | webserv/sources/server/SocketManager.cpp:352-378 | Clearing the client's mask and pushing the pipe keeps the layout |
| PollArray.ShowsScriptEnd | webserv/sources/server/SocketManager.cpp:380-421 | Setting POLLOUT and erasing the pipe's entry keeps the layout |
| PollArray.MaskOfReported | webserv/sources/server/SocketManager.cpp:226-245 | What a client's socket reports tells its whole mask: POLLIN or POLLOUT alone, so that no client is read and answered in the same turn |
| EventLoop.Server.AddClients | webserv/sources/server/server.cpp:53-74 | The vectors show the state after one accept step |
| EventLoop.Server.HandleDisconnect | webserv/sources/server/server.cpp:110-140 | The vectors show the state after one disconnect step, and no other client or report is touched |
| EventLoop.Server.GetClientReqCgi | webserv/sources/server/server.cpp:158-172 | For a polled pipe the fallback its comment calls unreachable is never taken |
| EventLoop.Server.TimeoutCloser | webserv/sources/server/server.cpp:19-30 | Exactly the expired clients are removed, the others stay in order, each with its own report, and the layout holds |
| EventLoop.Server.FindNextTimeout | webserv/sources/server/server.cpp:32-51 | The result is 0 if and only if some client has expired, and otherwise the least time any client has left |
| Timeouts.SleepIsExact | webserv/sources/server/server.cpp:19-51 | With no activity, a sweep before that moment removes nobody and a sweep at it removes somebody |
| Timeouts.AliveMembers | webserv/sources/server/server.cpp:19-30 | A sweep keeps a client if and only if it has not expired |
| EventLoop.Server.HandlErrCloses | webserv/sources/server/SocketManager.cpp:159-171 | The clients and reports left are exactly those of the loop that stops at the number of clients: only clients with a reported error are removed, and none is left below that index |
| Reports.NoErrorsMeans | webserv/sources/server/SocketManager.cpp:159-171 | That loop removes only clients with errors, keeps the others in order, and leaves no error below the index where it stops |
| Reports.OnlyErrorsGo | webserv/sources/server/SocketManager.cpp:159-171 | A client for whose socket neither POLLHUP nor an error was reported stays, and below the place where the loop stops nobody with one of them is left |
| EventLoop.Server.CheckForNewClients | webserv/sources/server/SocketManager.cpp:120-139 | One new client for every readable listening socket, in their order, with the entries behind its socket; the old clients and their reports stay in front, and nothing is reported for the new ones |
| EventLoop.Server.CgiEventsChecking | webserv/sources/server/SocketManager.cpp:380-421 | Pipe by pipe, a pipe that is looked at is read once, for its owner, exactly when data or its end was reported; the one behind a pipe that ended is passed over; nobody else changes |
| EventLoop.Server.ReadFromCgi | webserv/sources/cgi/CGI.cpp:139-189 | One read from a pipe is one step on its owner; what the step leaves to be sent is said by `LifeCycle.OutputIsSent` |
| EventLoop.Server.ReadRequest | webserv/sources/server/server.cpp:76-108 | The client's state after `recv` and the request handler, for each way the read can end |
| EventLoop.Server.HandleReadable | webserv/sources/server/SocketManager.cpp:226-245 | Exactly one receive or disconnect step for this client |
| EventLoop.Server.RunCgi | webserv/sources/server/SocketManager.cpp:260-276 | The script starts, or the error is answered and the connection closed or used again |
| EventLoop.Server.HandleWritable | webserv/sources/server/SocketManager.cpp:246-343 | The steps of the response part for this client, by its status |
| EventLoop.Server.SendScriptOutput | webserv/sources/server/SocketManager.cpp:278-303 | At most one buffer of a finished script's output, or reuse, or removal |
| EventLoop.Server.SendStatic | webserv/sources/server/SocketManager.cpp:307-343 | One prepared buffer, then closing or reuse after the last |
| EventLoop.Server.PollingForEvents | webserv/sources/server/SocketManager.cpp:142-157 | Waiting changes nothing of a client but its remaining time, and afterwards exactly the expired clients are gone, the others with what was reported for them |
| EventLoop.Server.ClientsRound | webserv/sources/server/SocketManager.cpp:222-345 | Every client present gets exactly one turn, decided by what was reported for its own socket, although the loop removes clients as it goes |
| Turns.ServedRest | webserv/sources/server/SocketManager.cpp:222-345 | Nobody is passed over or served twice: those who wait are the ones behind the served, untouched |
| Turns.TurnKeepsOthers | webserv/sources/server/SocketManager.cpp:222-345 | A client's turn changes nothing but that client |
| EventLoop.Server.Turn | webserv/sources/server/SocketManager.cpp:186-345 | What the system reports decides the turn: the clients that are kept, the new ones, the pipes that are read, and for every client then there exactly one turn, by the report of its own socket, or by none if it is new; the state left is reachable |
| EventLoop.Server.Gather | webserv/sources/server/SocketManager.cpp:189-200 | The clients there when the pipes are looked at are those that neither expired nor were closed for an error, in order and with their own reports, and one new client for each readable listening socket |
| EventLoop.Server.Poll | webserv/sources/server/SocketManager.cpp:149 | POLLIN and POLLOUT are left only where they are asked for; descriptors and masks stay |
| Reports.PipesReported | webserv/sources/server/SocketManager.cpp:386 | When the pipes are looked at their entries are still those that `poll` left |
| EventLoop.Server.RunCoreLoop | webserv/sources/server/SocketManager.cpp:173-350 | Any number of turns leaves the server in a reachable and safe state |
| Startup.SocketsAreSafe | webserv/sources/server/SocketManager.cpp:106-118 | What the sockets' set-up leaves behind is a safe start for the loop |
| Startup.Serve | webserv/sources/server/SocketManager.cpp:173-350 | From the configured addresses to the running loop: the table has exactly these addresses, and the server left after any number of turns shows a safe state, reachable from its sockets without clients |
| Lexing.LexRendered | webserv/sources/parser/Lexer.cpp:62-128 | Lexing any rendering of tokens, with whitespace and newline-terminated comments between them, gives those tokens at their lines and columns and one end of file |
| Lexing.Renders | webserv/sources/parser/Lexer.cpp:62-128 | Every text is such a rendering of the tokens found in it |
| Lexing.TokenPlace | webserv/sources/parser/Lexer.cpp:31-60 | Each token's text is the source at its start, its line and column are counted from the source, and the end of file comes last and once |
| Lexing.LinesAdd | webserv/sources/parser/Lexer.cpp:31-44 | A line break ends a line: lines add up over it, columns are counted from it, and without one the column is one more than the length |
| Lexing.KindsAre | webserv/sources/parser/Lexer.cpp:79-128 | Braces and semicolons have their own kinds, a word is a number exactly when it is digits, and words end at whitespace, braces, semicolons and comments |
| ConfigLexer.Lexer.Get | webserv/sources/parser/Lexer.cpp:31-44 | Line and column stay those of the position |
| ConfigLexer.Lexer.Skip | webserv/sources/parser/Lexer.cpp:62-77 | The position moves to the next character outside whitespace and comments |
| ConfigLexer.Lexer.StringToken | webserv/sources/parser/Lexer.cpp:108-128 | The longest run of word characters, a number exactly when all are digits; at least one character is consumed |
| ConfigLexer.Lexer.Tokenize | webserv/sources/parser/Lexer.cpp:79-105 | The loop ends with exactly the tokens of the specification |
| ConfigRoundTrip.ReadWritten | webserv/sources/parser/Config.cpp:79-465 | Every list of directives the language allows, written as tokens, is accepted and gives its meaning |
| ConfigRoundTrip.FileWasWritten | webserv/sources/parser/Config.cpp:79-465 | Whatever is accepted was written by such a list, and what was read is its meaning: the parser accepts exactly the language |
| ConfigMeaning.ServerMeans | webserv/sources/parser/Config.cpp:118-208 | Every accepted server block means, field by field, what its directives of each name say: the addresses are all that are listened on, the first name that is not empty stays, of roots, sizes and times the last counts, indexes are added up, and for each code the last page counts |
| ConfigMeaning.LocationMeans | webserv/sources/parser/Config.cpp:152-246 | The same for a location: methods and scripts are added up, and the last of the other directives counts |
| ConfigMeaning.Defaults | webserv/sources/parser/Config.cpp:28-55 | What a server and a location are without any directive |
| ConfigGrammar.NormPathIs | webserv/sources/parser/Config.cpp:99-116 | The path by which duplicates are refused is the one without the slashes around it |
| ConfigLimits.NumberLimits | webserv/sources/parser/Config.cpp:248-264 | Times are taken up to 86400 and ports from 1024 to 65535, and neither a step further |
| ConfigLimits.CodeTexts | webserv/sources/parser/Config.cpp:387-408 | A code has three digits, and that of a redirect begins with 3 |
| ConfigLimits.KnownWords | webserv/sources/parser/Config.cpp:315-446 | The words of flags and methods are these and no others, and a path begins with a slash |
| ConfigLimits.KnownDirectives | webserv/sources/parser/Config.cpp:179-246 | A block knows these directives and no others |
| ConfigLimits.BadArguments | webserv/sources/parser/Config.cpp:248-385 | Each refused argument has its own error, named at its own token |
| ConfigLimits.OctetLimits | webserv/sources/parser/ParserUtils.cpp:80-110 | A part of an address has one to three digits and is below 256 |
| ConfigLimits.EmptyMethods | webserv/sources/parser/Config.cpp:420-446 | An empty list of methods is taken only behind one that was not empty |
| ConfigLimits.BadAddresses | webserv/sources/parser/Config.cpp:266-290 | Behind a host, a port that is not digits and one that is out of range have errors of their own |
| ConfigLimits.BadMethods | webserv/sources/parser/Config.cpp:420-446 | The first word of a list that is no method is the one that is named |
| ConfigLimits.BadSecondArguments | webserv/sources/parser/Config.cpp:387-408 | Of a code and what comes with it, the one that is wrong is named |
| ConfigLimits.NoSemicolonBehind | webserv/sources/parser/Config.cpp:210-246 | A missing semicolon is named at the token behind the arguments |
| ConfigLimits.BadNames | webserv/sources/parser/Config.cpp:179-246 | An unknown directive is named at its own token |
| ConfigLimits.BadLocation | webserv/sources/parser/Config.cpp:99-142 | A location like an earlier one is named at its first word |
| ConfigLimits.BadBlocks | webserv/sources/parser/Config.cpp:79-172 | A missing `server`, brace, path or directive is named at the token that stands in its place |
| ConfigBounds.PastEndIff | webserv/sources/parser/Config.cpp:79-335 | The parser reads past its tokens if and only if they are correct servers and then correct items up to an `index`, of a server or of a location, that no semicolon ends |
| ConfigBounds.StaysInBounds | webserv/sources/parser/Config.cpp:327-335 | When every `index` has a later semicolon the parser never reads past its tokens |
| ConfigBounds.ListPastEnd | webserv/sources/parser/Config.cpp:327-335 | A location directive reads past the tokens if and only if it is an `index` with no semicolon behind it |
| ConfigBounds.ServerListPastEnd | webserv/sources/parser/Config.cpp:327-335 | A server directive reads past the tokens if and only if it is an `index` with no semicolon behind it |
| ConfigBounds.IndexRunsPastEnd | webserv/sources/parser/Config.cpp:327-335 | Concrete tokens on which the parser does read past its end |
| ConfigRoundTrip.AcceptedLocations | webserv/sources/parser/Config.cpp:99-142 | In every accepted server the locations begin with a slash and no two are the same but for slashes around them |
| ConfigPrintFile.RoundTrip | webserv/sources/parser/Config.cpp:79-246 | Any valid configuration, printed with any fitting unit and order of its sets and parsed, is given back |
| ConfigAccepted.AcceptedFits | webserv/sources/parser/Config.cpp:79-465 | Every configuration the parser accepts can be printed in some way, so that the round trip is about all of them |
| ConfigPrintFile.PrintedServer | webserv/sources/parser/Config.cpp:118-208 | The printed directives of a server block build that block from the defaults |
| ConfigPrint.PrintedLocation | webserv/sources/parser/Config.cpp:152-246 | The printed directives of a location build that location |
| GetConfigs.Reprinted | webserv/sources/parser/ParserUtils.cpp:15-23 | Whatever text is accepted, its configuration can be printed as a text, which is accepted and gives the same configuration |
| GetConfigs.TextsIff | webserv/sources/parser/ParserUtils.cpp:15-23 | A printed configuration is the tokens of some text if and only if its texts are ones the lexer makes tokens of |
| GetConfigs.PlainRoundTrip | webserv/sources/parser/ParserUtils.cpp:15-23 | A configuration whose texts are words, printed with blanks between its tokens, is read back from the text |
| GetConfigs.TextRoundTrip | webserv/sources/parser/ParserUtils.cpp:15-23 | A configuration is read back from any text that spaces out its printed tokens, with any whitespace and comments |
| ConfigText.TextIff | webserv/sources/parser/Lexer.cpp:62-128 | Tokens are those of some text exactly when each can be written and the end of file comes once, at the end |
| ConfigReprint.PrintableIff | webserv/sources/parser/Config.cpp:79-246 | A configuration is printed with such tokens exactly when all its texts are words |
| GetConfigs.GetConfig | webserv/sources/parser/ParserUtils.cpp:15-23 | Lexer and parser together: accepted exactly when the text's tokens are, with distinct locations and at least one address for every server |
| ConfigValues.FetchBodySize | webserv/sources/parser/Config.cpp:353-385 | A size is accepted exactly when it is digits and one unit whose exact product is below 2^64, and that product is the value; the units are those of `SizeIs` |
| ConfigValues.SizeIs | webserv/sources/parser/Config.cpp:375-384 | Digits and k, m or g in either case are the number times 1024, 1024^2 or 1024^3 when that is below 2^64 and refused otherwise, and any other last character is refused |
| ConfigValues.SizeOfDecimal | webserv/sources/parser/Config.cpp:353-385 | In particular for every number in decimal; a number without a unit is refused |
| ConfigValues.SaturatedGuard | webserv/sources/parser/Config.cpp:370-384 | The saturation of `atol` never lets a wrong product through the overflow guard |
| ConfigValues.ValidHost | webserv/sources/parser/ParserUtils.cpp:80-110 | A host is accepted exactly when it is 0.0.0.0, localhost or four dotted numbers up to 255 |
| ConfigValues.HostMeans | webserv/sources/parser/ParserUtils.cpp:80-110 | Hosts are the two names and exactly the texts made of four octets with dots between them |
| ConfigValues.ValidatePort | webserv/sources/parser/ParserUtils.cpp:58-68 | A port is accepted exactly when it is digits whose `atoi` lies in 1024 to 65535 |
| ConfigValues.AcceptedPorts | webserv/sources/parser/ParserUtils.cpp:58-68 | Digits are accepted exactly when their value is below the largest `long` and its low 32 bits lie in 1024 to 65535 |
| ConfigValues.PortInRangeIff | webserv/sources/parser/ParserUtils.cpp:58-68 | An accepted port lies in 1024 to 65535 if and only if it is below 2^32 |
| ConfigValues.WrappedPort | webserv/sources/parser/ParserUtils.cpp:58-68 | The port 4294975376 is accepted and read as 8080 |
| ConfigGrammar.AcceptedTimeouts | webserv/sources/parser/Config.cpp:248-264 | A number is accepted exactly when it is below the largest `long` and its low 32 bits are at most a day; it is at most a day itself if and only if it is below 2^32 |
| ConfigGrammar.WrappedTimeout | webserv/sources/parser/Config.cpp:248-264 | A timeout of 2^32 + 1 is accepted and read as one second |
| ConfigTokens.ConfigParser.ParseTokens | webserv/sources/parser/Config.cpp:79-89 | The class gives exactly the servers, the first error with its token, or the read past the end, that the grammar gives |
| ConfigTokens.ConfigParser.ParseServerBlock | webserv/sources/parser/Config.cpp:118-150 | A server block, its errors and the tokens left over are those of the grammar |
| ConfigTokens.ConfigParser.AddLocation | webserv/sources/parser/Config.cpp:136-142 | A location like an earlier one is refused at the word `location` |
| ConfigTokens.ConfigParser.ParseLocationBlock | webserv/sources/parser/Config.cpp:152-172 | A location block is that of the grammar |
| ConfigTokens.ConfigParser.ParseLocationDir | webserv/sources/parser/Config.cpp:210-246 | A location directive and its semicolon are those of the grammar |
| ConfigTokens.ConfigParser.ParseServerDir | webserv/sources/parser/Config.cpp:179-208 | A server directive and its semicolon are those of the grammar |
| ConfigTokens.ConfigParser.FetchPathList | webserv/sources/parser/Config.cpp:327-335 | All tokens up to the semicolon are taken, and without one the index leaves the tokens |
| ConfigTokens.ConfigParser.FetchListen | webserv/sources/parser/Config.cpp:266-290 | The first address replaces the default one, later ones are added; each error names the token |
| ConfigTokens.ConfigParser.FetchMethods | webserv/sources/parser/Config.cpp:420-446 | The methods up to the first other token are added to those set before; none at all is an error |
| ConfigTokens.ConfigParser.FetchErrorPages | webserv/sources/parser/Config.cpp:387-408 | A three-digit code gets its page, a later one over an earlier one |
| ConfigTokens.ConfigParser.FetchTimeout | webserv/sources/parser/Config.cpp:248-264 | A number whose 32-bit value lies within a day is taken |
| ConfigTokens.ConfigParser.MapLocationsRoot | webserv/sources/parser/Config.cpp:91-97 | Exactly the locations without a root get the server's |
| Routing.GetLocation | webserv/sources/response/location.cpp:21-58 | The chosen location matches the path and is the longest that does, and none is found exactly when none matches; for paths without repeated slashes its segments are the longest among the locations whose segments begin those of the path, and none is found exactly when there is no such location |
| Routing.MatchesIff | webserv/sources/response/location.cpp:38-42 | For paths that begin with a slash and have no repeated slashes, a location matches exactly when its segments begin those of the path |
| Routing.LongerIff | webserv/sources/response/location.cpp:48 | Of two locations whose segments begin a path the longer text is the one with more segments |
| Routing.LaterIsLonger | webserv/sources/response/location.cpp:48 | Of two locations that match a path the lexicographically greater is the longer |
| Routing.ChoiceIsUnique | webserv/sources/response/location.cpp:50-56 | In an accepted server at most one location has the chosen length |
| Routing.OrderDoesNotMatter | webserv/sources/response/location.cpp:21-58 | Servers with the same locations in any order choose the same one |
| Routing.MaxElement | webserv/sources/response/location.cpp:48 | No candidate is greater than the chosen one |
| Routing.NormOfStrip | webserv/sources/response/location.cpp:28-29 | The slash that is cut off here does not change the path by which duplicates are refused |
| Paths.ResolveIsCanonical | webserv/sources/request/utils.cpp:58-80 | The resolved path has a dot and then only the names left on the stack: no empty, `.` or `..` segment |
| Paths.ResolveTwice | webserv/sources/request/utils.cpp:58-80 | Resolving twice is resolving once |
| Paths.ResolveCollapsed | webserv/sources/request/utils.cpp:15-31 | Repeated slashes make no difference to the resolved path |
| Paths.ResolvePrefix | webserv/sources/request/utils.cpp:58-80 | Resolving `p/q` is resolving `resolve(p)/q` |
| Paths.CollapseIsSingle | webserv/sources/request/utils.cpp:15-31 | No two slashes in a row are left |
| Paths.SingleStays | webserv/sources/request/utils.cpp:15-31 | A path without repeated slashes is unchanged |
| Paths.SegmentsOfJoined | webserv/sources/response/location.cpp:4-19 | A slash separates: the segments of a joined path are those of its parts |
| Paths.SingleShape | webserv/sources/response/location.cpp:4-19 | A path without repeated slashes is its segments, each behind a slash, and perhaps one slash more |
| Sources.SplitPath | webserv/sources/response/location.cpp:4-19 | The loop gives the parts between slashes that are not empty |
| Sources.NormalizePath | webserv/sources/request/utils.cpp:15-31 | The loop leaves one slash for every run of slashes |
| Sources.ResolvePath | webserv/sources/request/utils.cpp:58-80 | The stack loop gives the resolved path |
| Sources.ReplaceAll | webserv/sources/request/utils.cpp:49-57 | The replace loop ends, and replaces every occurrence from the left without overlaps |
| Sources.PiecesAreExact | webserv/sources/request/utils.cpp:49-57 | The text is cut at every occurrence and nowhere else |
| Sources.PrefixReplaced | webserv/sources/request/utils.cpp:49-57 | A location at the front is replaced, and the rest of the path is searched as well |
| Sources.FrontAloneIff | webserv/sources/request/utils.cpp:49-57 | A location at the front of a path, other than its root, is replaced there alone if and only if the rest of the path does not contain it |
| Sources.ReplacedChanges | webserv/sources/request/utils.cpp:49-57 | Replacing leaves a text as it is exactly when the text has no occurrence |
| Sources.GetSource | webserv/sources/request/utils.cpp:33-80 | Without a location the source is empty; otherwise it is the resolved path behind the replacement by the upload store, the location's root or the server's |
| Sources.SourceRootIs | webserv/sources/request/utils.cpp:37-46 | The root is the upload store if there is one, else the location's root if there is one, else the server's, and ends with a slash |
| RequestSource.SourceOf | webserv/sources/request/utils.cpp:33-80 | The source of a request is that of the longest location that matches its path, or empty when none does |
| RequestSource.MappedIff | webserv/sources/request/utils.cpp:49-57 | For a location that matches, the path is mapped to the root and the part behind the location exactly when the location is `/`, stands for itself, or does not come again |
| RequestSource.SourceStaysIff | webserv/sources/request/utils.cpp:58-80 | A path that is mapped to root and rest has the root's names and then those of the rest when no prefix of the rest has more `..` than names; unless the rest names the root's last directory, exactly then it stays under the root; in any case it does if and only if the rest comes down again through the directories it left, behind its last lowest point |
| RequestSource.SourceLeads | webserv/sources/request/utils.cpp:33-80 | For a location that matches and does not come again behind itself, the file is the one that the rest of the path leads to from the upload store, or else from the location's root, or else from the server's |
| RequestSource.ClimbsOut | webserv/sources/request/utils.cpp:58-80 | With location `/` and root `/html/`, the path `/../x` names `./x`, outside the root |
| RequestSource.ComesAgain | webserv/sources/request/utils.cpp:49-57 | With location `/a` and root `/r/`, the path `/a/b/a/c` is mapped to `/r//b/r//c` |
| Paths.StaysIff | webserv/sources/request/utils.cpp:58-80 | Names are kept below along all segments if and only if no prefix of these has more `..` than names |
| Paths.InsideIff | webserv/sources/request/utils.cpp:58-80 | Names whose last is not among the segments are still below at their end if and only if no prefix of the segments has more `..` than names |
| Paths.InsideExactly | webserv/sources/request/utils.cpp:58-80 | Names are still below at the end if and only if the segments behind the last lowest point of the stack begin with the names taken away there |
| Paths.FoldSplit | webserv/sources/request/utils.cpp:58-80 | What is below the last lowest point of the stack is untouched, and above it is what the segments behind that point come to |
| Paths.FoldHeight | webserv/sources/request/utils.cpp:58-80 | How many names are left follows from counting names and double dots alone |
| UrlCoding.DecodeEncoded | webserv/sources/request/utils.cpp:98-125 | However a text is written with escapes and plus signs, it is decoded to what is meant |
| UrlCoding.EscapedRoundTrip | webserv/sources/request/utils.cpp:98-125 | Every byte string survives escaping and decoding |
| UrlCoding.PercentIs | webserv/sources/request/utils.cpp:104-116 | A percent sign and any two characters: two digits are their byte, a digit and another character or a blank or a plus sign and a digit are that digit, both consumed, and everything else leaves the percent sign as it is |
| UrlCoding.LastPercent | webserv/sources/request/utils.cpp:104-116 | A percent sign with fewer than two characters behind it stands for itself |
| UrlCoding.UrlDecode | webserv/sources/request/utils.cpp:98-125 | The loop decodes as the specification does, incomplete escapes included |
| Query.QueryRoundTrip | webserv/sources/request/request.cpp:76-98 | A map whose keys lack `=` and `&` and whose values lack `&`, joined in any order behind a path and a question mark, is read back as the same map |
| Query.Refused | webserv/sources/request/request.cpp:92-95 | A query is refused if and only if some parameter has no equals sign |
| Query.NoQuery | webserv/sources/request/request.cpp:76-81 | Without a question mark the target is the path, as it is, and there are no parameters |
| Query.LastValueCounts | webserv/sources/request/request.cpp:76-98 | A parameter that comes again has its last value |
| Query.ParamsOfJoined | webserv/sources/cgi/CGI.cpp:18-29 | The parameters of a joined query are its entries in order |
| Query.JoinQuery | webserv/sources/cgi/CGI.cpp:18-29 | The loop writes the entries with ampersands between them |
| Query.ParseQueryParams | webserv/sources/request/request.cpp:76-98 | The path is normalised, and the parameters are taken one after the other up to the first bad one |
| Ranges.ValidIsInFile | webserv/sources/response/response.cpp:128-202 | A valid range on a file that is not empty has 0 <= start <= end < size |
| Ranges.EmptyFileRange | webserv/sources/response/response.cpp:182-201 | On an empty file every valid range is upside down, so that the file's not being empty is exactly what is needed |
| Ranges.EmptyFileHasRange | webserv/sources/response/response.cpp:182-201 | `bytes=-` is a valid range of an empty file |
| Ranges.ClosedRange | webserv/sources/response/response.cpp:128-202 | `bytes=a-b` is from a to b, or to the end of the file (section 14.1.2 of RFC 9110) |
| Ranges.OpenRange | webserv/sources/response/response.cpp:191-195 | `bytes=a-` is from a to the end |
| Ranges.SuffixRange | webserv/sources/response/response.cpp:176-183 | `bytes=-n` is the last n bytes |
| Ranges.ClosedIff | webserv/sources/response/response.cpp:185-201 | `bytes=a-b` is valid exactly when a is at most b and inside the file, with an error of its own for each reason |
| Ranges.OpenIff | webserv/sources/response/response.cpp:185-201 | `bytes=a-` is valid exactly when a is inside the file |
| Ranges.SuffixIff | webserv/sources/response/response.cpp:176-183 | `bytes=-n` is valid exactly when n is at least 1 and at most the length of the file |
| Ranges.WholeFile | webserv/sources/response/response.cpp:128-202 | `bytes=-` on a file that is not empty is the whole of it |
| Ranges.NoRangeAtAll | webserv/sources/response/response.cpp:128-150 | A header without `bytes=`, or without a dash behind it, is refused |
| Ranges.SignedNumber | webserv/sources/response/response.cpp:151-175 | A number may have whitespace and a sign in front of its digits, and is held to 63 bits |
| Ranges.NotANumber | webserv/sources/response/response.cpp:151-175 | A text that begins with no blank or sign and is not all digits is no number |
| Ranges.BehindNul | webserv/sources/response/response.cpp:151-175 | A number ends at a NUL, and an empty one in front of it counts as 0 |
| Ranges.ParseRangeHeader | webserv/sources/response/response.cpp:128-202 | The field-by-field code computes the range, or the first error, of the specification |
| Streaming.StreamingIsSafe | webserv/sources/response/response.cpp:204-305 | However the file is read and the buffer sent, the bytes on the wire are a prefix of headers and file from the range's start (for a response in memory with a body, of that response twice), and the buffer stays bounded |
| Streaming.FullRead | webserv/sources/response/response.cpp:262-305 | A read that gives all it can takes the next 4096 bytes of the file, or what is left of it, and only a read that finds nothing left ends the response |
| Streaming.CompleteIff | webserv/sources/server/SocketManager.cpp:307-343 | A response goes out whole if and only if the `send` of the turn that ends it takes all that this turn prepared; the rest is dropped |
| Streaming.FullSendsComplete | webserv/sources/server/SocketManager.cpp:307-343 | When every `send` takes a whole buffer, a response that is over went out whole |
| Streaming.LostTail | webserv/sources/server/SocketManager.cpp:307-343 | A file of two bytes of which the last is never sent, after two partial sends |
| Streaming.RunsEnd | webserv/sources/response/response.cpp:204-305 | Every turn sends something, so that a response is over after as many turns as it has bytes, and one more |
| Streaming.RangeEndsIff | webserv/sources/response/response.cpp:221-260 | The response to a range can end if and only if its headers are shorter than a chunk |
| Streaming.LongRangeNeverReads | webserv/sources/response/response.cpp:221-260 | Range headers that fill a chunk are put into the buffer again in every turn, and the file is never read |
| Streaming.OnceIff | webserv/sources/response/response.cpp:308-315 | No run puts out more than the answer if and only if the response streams, has no body, or is media without a range |
| Streaming.InMemoryTwice | webserv/sources/response/response.cpp:308-315 | A response in memory with a body goes out twice when the socket takes all of it |
| Streaming.ClosesIff | webserv/sources/response/response.cpp:204-316 | A response that is over has asked for the connection to be closed exactly when it was media without a range, or when closing was asked for before |
| Streaming.TurnKeeps | webserv/sources/response/response.cpp:204-305 | One turn of preparing and sending keeps sent, buffered and unread bytes together the whole response |
| ResponseSender.Sender.SendResponse | webserv/sources/response/response.cpp:204-316 | The code on the fields prepares the buffer as the specification does |
| ResponseSender.Sender.ReadChunk | webserv/sources/response/response.cpp:262-305 | One read of at most a chunk into a buffer that has less than a chunk, or the end of the file |
| ResponseSender.Sender.Run | webserv/sources/server/SocketManager.cpp:307-343 | Turns until the end: the wire is a prefix, at the end all but what is left in the buffer, and the end comes |

## Left out

- EventLoop.Server.HandlErrCloses: does not say that every client with an error is removed, because the loop stops at the number of clients and not at the end of their entries.
- EventLoop.Server.Turn: a failed `poll`, which leaves the reports of the turn before in place, is not modelled.
- EventLoop.Server.PollingForEvents: a failed `poll` is not modelled here either.
- EventLoop.Server.ReadRequest: what the request handler makes of the client is any of the outcomes the code distinguishes, not tied to the bytes received.
- EventLoop.Server.SendStatic: what `sendResponse` prepares is free here, and not tied to module Streaming.
- EventLoop.Server.GetClientReqCgi: the fallback on an empty client vector, which is undefined behaviour, is not modelled; it is not reached.
- EventLoop.Server.RunCgi: a failed script start is taken to leave no pipe; the code leaves the field unset there.
- EventLoop.Server.TimeoutCloser: the clock is read once a sweep and not once a client.
- ChunkedSplit.SplitIndependence: after a failure the bytes left in the buffer are not compared, because they differ.
- Upload.BlocksDoNotMatter: only the first accepted chunked upload of a connection, because neither parser is reset between requests.
- MultipartUpload.UploadInBlocks: only the first accepted multipart upload of a connection, for the same reason.
- MultipartStream.MultipartParser.ProcessPartHeaders: file names, content types and a file that cannot be opened are not modelled.
- Streaming.StreamingIsSafe: the date header, which may differ between two generated headers, and failures of `open`, `lseek`, `read` and `send` are not modelled; nothing is said about stopping at a range's end, which the code does not do.
- UrlCoding.UrlDecode: a second `0x` behind the first, on which standard libraries differ, is taken as the digit 0; the same holds for chunk sizes.
- UploadHandling.UploadClient.RequestHandler: parsing the headers, and the requests that are rejected because of them, are not modelled.
- MultipartHandling.MultipartClient.RequestHandler: the same holds here, but for a Content-Type without a boundary.
- ConfigBounds.PastEndIff: only tokens that end with their one end of file, as the lexer gives them; on others the source reads out of bounds in more places.
- RequestSource.SourceOf: the location that an earlier call left in the request, which `getSource` uses when no location matches, is not modelled; the error page is not either.
- ConfigTokens.ConfigParser.ParseTokens: the messages of errors are names, not texts; warnings are not modelled. Fields a location leaves uninitialised are marked as unset.
- ConfigTokens.ConfigParser.AddLocation: server entries and locations are values passed along, because the source only changes local ones before it copies them.
- Partial and failed writes of an upload, and a client's other upload forms (single file, script body).
- Processes, signals, cookies and sessions, directory listings, error pages, MIME types, generated file names, the GET, POST and DELETE handlers, console output.
- Reading the configuration file from disk.
