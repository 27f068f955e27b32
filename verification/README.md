# HTTP server and chat room, verified

A Dafny model of two programs of the repository: the HTTP server in `http_server/` and the chat
server and client in `boost_chat/`.  Objects that the source updates in place are classes; each of
their methods is proved equal to a step of a value-level machine, and the properties are proved about
all runs of those machines.

## The parts

**HTTP request parser** (`Basics`, `CharClasses`, `Decimal`, `RequestGrammar`, `RequestMachine`,
`RequestParser`).  `RequestParsing.RequestParser` assigns its state and the request in place, byte by
byte, as `consume` and `parse` do.  `RequestGrammar` gives the accepted language on its own: syntax
trees, their printing and their meaning.  It is the full request of RFC 1945, section 5, with the
differences the code has: the URI may be empty; exactly one space follows the colon and further
spaces belong to the value; a tab in a value is refused; a folded line loses its leading blanks and
is appended to the value without a separator; an all-blank fold adds nothing; bytes from 128 on are
allowed in URIs and values but not in tokens.  `ParseTrees`, `TreeRuns` and `TreeCompleteness` prove
that a tree-building machine in lock step with the parser is sound and complete for the grammar.  The
results are in `ParserTheorems`, `LineDiscipline`, `Segmentation`, `RequestRoundTrip` and
`VersionNumbers`.

**Requests to replies** (`UrlDecoding`, `CText`, `RequestHandling`, `OpenedFiles`, `Replies`).  The decoding loop,
path checks, the 512-byte read loop, and the reply's buffers with a reader that recovers the reply.

`WireExamples` has a request and the replies byte by byte.

**HTTP connections** (`HttpProtocol`, `HttpServer`).  Accepts, reads, writes, their completions and
the stop signal as events in any order.

**Chat** (`ChatMessages`, `ChatProtocol`, `ChatTheorems`, `ChatServer`, `ClientProtocol`, `ChatClient`).  The message
buffer and its length field; the room with replay and broadcast, and the write pump of each session;
the client with its pump that closes the socket when the queue runs empty, and its frame reader.

## What is assumed of asio

- Handlers run one at a time, and each pending operation completes exactly once.
- "Aborted" is reported only when the socket was closed after the operation began.
- A success that is already queued may still be delivered after the close.
- An operation begun on a closed socket fails, with an error other than "aborted".

- A write of the client that began before its connect has completed may succeed or fail; once the
  connect has failed on an open socket no write succeeds.

Apart from this completions may come in any order and every operation may fail.

## Results

- The parser answers good after n bytes exactly when those n bytes are the printing of a syntax tree.
  The tree is unique and the request is its meaning, whatever the version fields held before.
- It answers bad exactly at the first byte after which no accepted request is possible, and
  indeterminate exactly while some non-empty continuation is accepted.
- A good parse ends with the first empty line.  Cutting the input into reads changes nothing.
- Printing a request and parsing it gives it back; so does printing what was parsed.
- For every input, accepted or not, the 32-bit arithmetic of the version numbers overflows exactly
  when some prefix of it ends in a version number that exceeds the maximum less 48: the code adds the
  character before it subtracts '0'.  On such inputs the other results about the parser speak of
  unbounded numbers.
- The file that is opened lies below the root, if the root holds no NUL, and its path holds no "..".
- Over all runs of the server: a connection is in the set of live ones exactly while its socket is
  open, with exactly one pending operation; it answers at most once, with what the grammar and the
  file store say, and a client can read the answer back.  After the stop the set stays empty and the
  event loop runs out of work.
- Over all runs of the room: what each session has sent, followed by its queue, is one stretch of
  the room's log, from 100 messages before it joined up to now or to when it left.  The log in turn is
  an interleaving of what the sessions have read and delivered.
- Over all runs of the client: sent followed by queued is what was accepted, and what it has shown
  is what the received bytes decode to, except for an empty body whose read has not succeeded.
- A length survives the header's four-character field and the check behind it exactly up to 512, to
  which the setter clamps every length.

Some results are about what the code does not do; each comes with its exact condition and with an
input on which it fails.

- The server's body read asks for four bytes too many.  Over all runs, what a session delivers is what
  its bytes decode to with four bytes after each body (`SessionDelivers`), so a session that received
  frames has delivered what was sent only if there were none (`ServerReadsOnlyNothing`,
  `OneMessageIsNotRead`).  The read stays inside the buffer exactly up to a length of 508, while the
  header check admits 512 (`BodyFitsUpTo508`, `LongerBodiesAreAwaited`).
- A client whose connect has failed, whose queue has run empty once, or whose write has failed never
  sends anything again (`RefusedIsFinal`, `OneBurst`, `FailureIsFinal`, `SecondMessageIsNeverSent`);
  `MuteExactly` says exactly when that is so.
- A path is cut at its first NUL on the way to the file system, while the content type is taken from
  the whole path.  The name may then end in a slash, and the type be that of another name
  (`OpenedName`, `TypeIsOfOpenedFile`, `NulNamesDirectory`, `NulCutsFileName`).
- An empty body whose read fails is received and not shown (`ShownIsDecoded`, `EmptyBodyIsNotShown`).
- The version numbers above (`VersionsFit`, `OverlongVersion`).

## Model

| member | source | states |
|---|---|---|
| CharClasses.ClassesByCharacter | http_server/request_parser.cpp:191-210 | the members of the four classes, and of the blanks, by character |
| CharClasses.TokenCharacters | http_server/request_parser.cpp:191-207 | what method and header names are made of, by character |
| RequestParsing.Request.constructor | http_server/request.hpp:8-14 | a new request is empty and its version fields hold whatever was there |
| RequestParsing.RequestParser.constructor | http_server/request_parser.cpp:7-9 | a new parser is in the first state |
| RequestParsing.RequestParser.Consume | http_server/request_parser.cpp:13-190 | one byte changes state and request in place as one step of the machine, with the same verdict |
| RequestParsing.RequestParser.Parse | http_server/request_parser.hpp:14-24 | one read's bytes give the verdict, position and state of the whole-string run; the rest is left unread after a decision; `headers.back()` stays safe over any number of calls |
| WireExamples.RequestIsAccepted | http_server/request_parser.cpp:13-190 | a literal request with a hyphen in a header name, a fold and an empty value is accepted as a literal value, whatever follows |
| RequestMachine.Run | http_server/request_parser.cpp:123-184 | every reachable state in which `headers.back()` is used has a last header, with a non-empty name, for every byte sequence |
| TreeRuns.BuildSound | http_server/request_parser.cpp:13-190 | in every state the draft tree prints exactly the bytes read so far, and a finished tree is well formed |
| TreeRuns.RunFollowsBuild | http_server/request_parser.cpp:13-190 | the request under construction always says what the draft tree says: method, URI, decimal versions, headers with folds joined |
| TreeCompleteness.BuildComplete | http_server/request_parser.cpp:13-190 | the printing of any well-formed tree is read back as that tree, whatever follows |
| ParserTheorems.GoodIsAccepted | http_server/request_parser.hpp:14-24 | good after n bytes if and only if the first n bytes are in the grammar's language |
| ParserTheorems.AcceptsPrinting | http_server/request_parser.cpp:13-190 | the printing of a tree is accepted, consumed exactly, and yields the tree's meaning |
| ParserTheorems.GoodIsPrinting | http_server/request_parser.cpp:13-190 | whatever is accepted is the printing of a tree whose meaning is the request |
| ParserTheorems.Unambiguous | http_server/request_parser.cpp:13-190 | the tree is unique and no accepted string continues another |
| ParserTheorems.BadIsDead | http_server/request_parser.cpp:13-190 | bad at byte n if and only if the bytes before n can be extended to an accepted request and those up to n cannot |
| ParserTheorems.BadIsNotViable | http_server/request_parser.cpp:13-190 | after bad no continuation is accepted |
| ParserTheorems.IndeterminateIsExtensible | http_server/request_parser.hpp:14-24 | indeterminate if and only if some non-empty continuation is accepted |
| ParserTheorems.Completion | http_server/request_parser.cpp:13-190 | every state has a suffix that completes a request |
| LineDiscipline.FirstTerminator | http_server/request_parser.cpp:106-187 | a good parse consumes up to and including the first CRLFCRLF, and in it every CR and LF is half of a CRLF |
| Segmentation.RunAppend | http_server/request_parser.hpp:14-24 | parsing a+b is parsing a and then b while undecided; after a decision b is never inspected |
| Segmentation.ChunksDoNotMatter | http_server/connection.cpp:22-45 | verdict and request are the same for every way to cut the bytes into reads |
| Segmentation.OldVersionsAreNotRead | http_server/request_parser.cpp:71-115 | the uninitialised version fields make no difference: they are set to 0 before they are read |
| RequestRoundTrip.CanonicalMeaning | http_server/request_parser.cpp:13-190 | a well-formed request is the meaning of its canonical tree |
| RequestRoundTrip.MeaningIsWf | http_server/request_parser.cpp:13-190 | the request of any accepted tree is well formed, folds included |
| RequestRoundTrip.PrintThenParse | http_server/request_parser.cpp:15-187 | printing a well-formed request and parsing it, with anything behind it, gives it back and consumes exactly the print |
| RequestRoundTrip.ParseThenPrint | http_server/request_parser.cpp:15-187 | what was parsed is well formed, and printing and parsing it again gives the same request |
| VersionNumbers.VersionsFit | http_server/request_parser.cpp:80-115 | for every input: no 32-bit overflow if and only if every version number that a prefix ends in is at most the maximum less 48 |
| VersionNumbers.LargestVersion | http_server/request_parser.cpp:82-82 | the largest version number that fits, as a number |
| VersionNumbers.VersionReadIs | http_server/request_parser.cpp:80-115 | the parser is in the middle of a version number exactly when the input read so far ends in one |
| VersionNumbers.RequestFits | http_server/request_parser.cpp:80-115 | for an accepted request only its two version numbers matter |
| VersionNumbers.LengthDecides | http_server/request_parser.cpp:80-115 | nine digits never overflow, eleven always do unless the first is a zero |
| VersionNumbers.OverlongVersion | http_server/request_parser.cpp:88-93 | a concrete input that overflows and is refused |
| Decimal.ValueOfDigits | http_server/reply.cpp:217-217 | decimal notation is read back as the number and has no leading zero |
| UrlDecoding.UrlDecode | http_server/request_handler.cpp:54-78 | the loop over the string computes the recursive decoding, and fails exactly where that fails |
| UrlDecoding.DecodeInverts | http_server/request_handler.cpp:54-78 | decoding inverts every encoding, for any choice of bytes to escape |
| UrlDecoding.DecodedIsEncoding | http_server/request_handler.cpp:54-78 | success means the input is such an encoding of the result, and its length is that of the result plus 2 for each escape |
| UrlDecoding.EncodingIsUnique | http_server/request_handler.cpp:54-78 | in one way only |
| UrlDecoding.EveryStringHasEncodings | http_server/request_handler.cpp:54-78 | every byte string has an encoding for any choice of bytes to leave, of spaces to write as '+' and of the case of each digit, and it decodes to the string |
| UrlDecoding.HexDigits | http_server/request_handler.cpp:60-63 | what each hexadecimal digit means, in both cases, and that there are no others |
| UrlDecoding.OddPairs | http_server/request_handler.cpp:60-63 | pairs that are not two digits, by example: blanks, signs, one digit, no number |
| UrlDecoding.ShortEscapes | http_server/request_handler.cpp:58-70 | an escape that is cut short fails |
| CText.SpacesByCharacter | http_server/request_handler.cpp:61-62 | the blanks that an extraction skips, by character |
| RequestHandling.FindLastOf | http_server/request_handler.cpp:30-31 | the last position of a character, or that there is none |
| RequestHandling.RefusedPaths | http_server/request_handler.cpp:20-24 | exactly the rooted paths that do not contain ".." pass the checks |
| RequestHandling.DotDotIsSubstring | http_server/request_handler.cpp:21-21 | two dots side by side are the substring ".." |
| RequestHandling.IndexPages | http_server/request_handler.cpp:26-28 | a path that ends in a slash becomes that of its index.html; any other stays |
| RequestHandling.ServedPaths | http_server/request_handler.cpp:20-28 | a path that passes the checks, with its index page, is rooted, has no ".." and does not end in a slash |
| RequestHandling.ExtensionIsSuffix | http_server/request_handler.cpp:30-35 | the extension is empty or what follows a dot in the last segment, with neither '/' nor '.' in it |
| RequestHandling.ExtensionIsUnique | http_server/request_handler.cpp:30-35 | it is the only such suffix, so it is empty only if there is none |
| RequestHandling.OkServesFile | http_server/request_handler.cpp:37-52 | an ok reply carries exactly one file and a length that reads back; the file named by root and path if and only if neither holds a NUL |
| RequestHandling.WhichReply | http_server/request_handler.cpp:14-53 | bad request, not found or ok: exactly when the URI encodes no path that passes the checks, one that names no file, one that names a file |
| OpenedFiles.OpenedName | http_server/request_handler.cpp:37-39 | the name that is opened is the root followed by a rooted path without ".."; it ends in a slash if and only if the first NUL of the path follows a slash |
| OpenedFiles.TypeIsOfOpenedFile | http_server/request_handler.cpp:30-52 | exactly when the content type of the reply is the one the name that is opened would get |
| OpenedFiles.ExtensionPastNul | http_server/request_handler.cpp:30-35 | which extension a path with a NUL has, in terms of the parts before and behind it |
| OpenedFiles.NulKeepsPlainType | http_server/request_handler.cpp:30-52 | a concrete path that is cut, with another extension and the same type |
| OpenedFiles.NulCutsFileName | http_server/request_handler.cpp:37-52 | a concrete URI for which a file without extension is served as HTML |
| OpenedFiles.NulNamesDirectory | http_server/request_handler.cpp:20-39 | a concrete URI that passes the checks and is cut to a name that ends in a slash |
| RequestHandling.HandledIsReadable | http_server/request_handler.cpp:14-53 | every reply of the handler is recovered by a reader of its bytes |
| RequestHandling.MimeTypes | http_server/mime_types.cpp:8-23 | the table of content types and its default |
| WireExamples.FileOnTheWire | http_server/request_handler.cpp:44-52 | the reply for a file byte by byte, for any content |
| WireExamples.RootIsServed | http_server/request_handler.cpp:14-53 | the root is answered with its index page as HTML |
| RequestHandling.FileStream.Read | http_server/request_handler.cpp:46-46 | a read of n characters returns what there is, and a short one makes later reads fail |
| RequestHandling.RequestHandler.AppendFile | http_server/request_handler.cpp:44-47 | the read loop terminates having appended the whole file, whatever its length |
| RequestHandling.RequestHandler.SetFileHeaders | http_server/request_handler.cpp:48-52 | two headers, the content's length and its type |
| RequestHandling.RequestHandler.ServePath | http_server/request_handler.cpp:30-52 | the reply object ends up as the file's reply, or as the stock reply if there is no file |
| RequestHandling.RequestHandler.HandleRequest | http_server/request_handler.cpp:14-53 | the reply object ends up as the reply to the request's URI |
| Replies.Reply.ToBuffers | http_server/reply.cpp:81-94 | the concatenated buffers are the serialised reply |
| Replies.SerializeThenRead | http_server/reply.cpp:38-94 | a reader recovers status, header list and content if no header name holds ':' or CR and no value CR |
| Replies.StatusTextsDiffer | http_server/reply.cpp:5-37 | no two statuses share a status line |
| Replies.CodeIsNumber | http_server/reply.hpp:10-27 | the code in the status line is the number of the status |
| Replies.Reasons | http_server/reply.cpp:6-37 | the sixteen reason phrases |
| Replies.StatusLines | http_server/reply.cpp:6-27 | the three status lines of the server as text |
| Replies.Pages | http_server/reply.cpp:96-146 | the pages of the two stock replies of the server as text, and that of 204 with its slip |
| Replies.StockIsReadable | http_server/reply.cpp:211-221 | every stock reply is recovered, and its Content-Length reads back as the size of its content |
| Replies.StockOnTheWire | http_server/reply.cpp:211-221 | a stock reply byte by byte |
| Replies.BadRequestOnTheWire | http_server/reply.cpp:132-136 | the reply to a bad request as text |
| Replies.NotFoundOnTheWire | http_server/reply.cpp:147-151 | the reply for a missing file as text |
| Replies.Reply.StockReply | http_server/reply.cpp:211-221 | a new reply object with status, page, length and type |
| Replies.Reply.constructor | http_server/reply.hpp:9-32 | a new reply is empty and its status is whatever was there |
| HttpProtocol.StepKeepsOk | http_server/server.cpp:32-52 | every completion or signal keeps the invariant of the whole server |
| HttpProtocol.ConnStepKeepsOk | http_server/connection.cpp:22-66 | every completion keeps the invariant of its connection and brings none back into the set |
| HttpProtocol.RunKeepsOk | http_server/server.cpp:29-31 | so does every run |
| HttpProtocol.RunExtends | http_server/connection.cpp:22-66 | whatever completes after a run can be handled: no handler meets a state it cannot use |
| HttpProtocol.ConnectionLife | http_server/connection_manager.cpp:5-17 | in every reachable state a connection is in the set exactly while its socket is open, then has exactly one pending operation and never two; at most one request handled and one reply write begun |
| HttpProtocol.ConnectionAnswers | http_server/connection.cpp:22-66 | in every reachable state the answer is decided by the received bytes however they were cut: none while they can still become a request, the handler's reply if and only if they start with one, else bad request; a client reads it back from the bytes given to the write |
| HttpProtocol.RequestIsAnswered | http_server/connection.cpp:22-66 | a run from the start for every request: accepted, read, answered with the handler's reply, closed, and the next accept pending |
| HttpProtocol.EveryOutcomeMayHappen | http_server/connection.cpp:22-66 | the runs cover every completion that asio may deliver: success with any bytes, failure, and abortion after a close |
| HttpProtocol.AcceptsMayEnd | http_server/server.cpp:32-52 | and every end of an accept, and the signal |
| HttpProtocol.ReadsFillTheBuffer | http_server/connection.hpp:27-27 | a read returns at most 8192 bytes |
| HttpProtocol.ShutdownIsSafe | http_server/server.cpp:46-52 | after the stop handler the set is empty and every socket closed, in every continuation with queued successes still delivered |
| HttpProtocol.StopIsFinal | http_server/server.cpp:46-52 | the stop handler runs once |
| HttpProtocol.StepDrains | http_server/server.cpp:29-52 | after the stop every handler lowers the measure |
| HttpProtocol.ShutdownDrains | http_server/server.cpp:29-52 | after the stop no run is longer than the measure of what is pending |
| HttpProtocol.DrainedIffNothingPending | http_server/server.cpp:29-31 | the measure is 0 if and only if no event can happen any more |
| HttpServer.Connection.constructor | http_server/connection.cpp:10-15 | an open socket, a parser in its first state, nothing pending |
| HttpServer.Connection.Start | http_server/connection.cpp:16-18 | one read begins |
| HttpServer.Connection.Decide | http_server/connection.cpp:34-45 | one of three ways to go on, as the verdict says |
| HttpServer.Connection.OnReadOk | http_server/connection.cpp:25-45 | the read handler parses the buffer and handles, refuses or reads on |
| HttpServer.Connection.DoWrite | http_server/connection.cpp:51-56 | one more write begins, of the serialised reply |
| HttpServer.Connection.OnEnd | http_server/connection.cpp:46-48 | a failed operation stops the connection unless it was aborted |
| HttpServer.Connection.Deliver | http_server/connection.cpp:22-66 | the completion of a pending operation does to the connection what the protocol's step says |
| HttpServer.ConnectionManager.Start | http_server/connection_manager.cpp:5-8 | the connection is in the set and its first read begun |
| HttpServer.ConnectionManager.Stop | http_server/connection_manager.cpp:9-12 | it is out of the set and its socket closed |
| HttpServer.ConnectionManager.StopAll | http_server/connection_manager.cpp:13-17 | every member is closed, no other connection touched, and the set empty |
| HttpServer.Server.constructor | http_server/server.cpp:7-28 | the signal awaited, the acceptor open, one accept pending |
| HttpServer.Server.OnAccept | http_server/server.cpp:32-45 | no more accepts after the close; else a new connection if there was no error, and the next accept |
| HttpServer.Server.OnSignal | http_server/server.cpp:46-52 | the acceptor closes and every live connection with it |
| HttpServer.Server.AddConnection | http_server/server.cpp:38-42 | a new connection over the accepted socket is started, the others unchanged |
| HttpServer.Server.OnCompletion | http_server/connection.cpp:22-66 | a completion changes its own connection as the protocol says and no other |
| HttpServer.Server.Dispatch | http_server/server.cpp:29-52 | each handler does to the objects what the protocol's step does to the world |
| HttpServer.Server.Run | http_server/server.cpp:29-31 | the event loop over the objects reaches the world the protocol reaches, for every run |
| HttpServer.Server.ObjectsAreOk | http_server/connection_manager.cpp:5-17 | of the objects themselves: live exactly while the socket is open, then one pending operation, one reply at most, and no live connection after the stop; `Run` ends so from the initial state |
| CText.FieldReadsBack | boost_chat/chat_message.hpp:46-50 | `atoi` of what "%4d" writes is the number, and fills four characters, up to 9999 |
| CText.FieldIsRightAligned | boost_chat/chat_message.hpp:48-48 | the field is the number behind blanks |
| CText.AtoiReads | boost_chat/chat_message.hpp:39-39 | what `atoi` reads of blanks, a sign, digits and anything behind them |
| ChatMessages.DecodeEncodes | boost_chat/chat_message.hpp:36-50 | a length is read back from its encoded header if and only if it is at most 512 |
| ChatMessages.ChatMessage.constructor | boost_chat/chat_message.hpp:10-12 | a buffer for header and body, with length 0 |
| ChatMessages.ChatMessage.SetBodyLength | boost_chat/chat_message.hpp:31-35 | the length is clamped to 512 |
| ChatMessages.ChatMessage.DecodeHeader | boost_chat/chat_message.hpp:36-45 | the length becomes that of the header, or 0 with a refusal if it is negative or too large |
| ChatMessages.FilledBody | boost_chat/chat_message.hpp:22-27 | bytes received behind the header leave it alone and make up the body |
| ChatMessages.ChatMessage.EncodeHeader | boost_chat/chat_message.hpp:46-50 | the header in the buffer is the length's field and the body is untouched |
| ChatMessages.EncodedIsDecodable | boost_chat/chat_message.hpp:36-50 | a message whose header was encoded can be read as a frame |
| ChatMessages.ClientReadsFrames | boost_chat/chat_client.cpp:43-73 | reading the concatenated frames of any messages yields exactly their bodies and is back at a frame boundary, whatever follows |
| ChatMessages.ReadingGrows | boost_chat/chat_client.cpp:43-73 | bytes that arrive later do not change what was read before |
| ChatMessages.ServerReadsOnlyNothing | boost_chat/chat_server.cpp:74-86 | a reader that asks for the whole message's length as body gets the bodies that were sent if and only if nothing was sent |
| ChatMessages.OneFrameIsNotEnough | boost_chat/chat_server.cpp:74-86 | with one frame received such a reader is still waiting for the end of its body |
| ChatMessages.OneMessageIsNotRead | boost_chat/chat_server.cpp:74-86 | a concrete message of which it reads nothing |
| ChatProtocol.StepKeepsOk | boost_chat/chat_server.cpp:42-102 | every join, read, delivery, write completion or error keeps the invariant of the room |
| ChatProtocol.RunKeepsOk | boost_chat/chat_server.cpp:42-102 | so does every run |
| ChatProtocol.RunExtends | boost_chat/chat_server.cpp:87-102 | no write handler ever finds an empty queue to pop, and whatever completes can be handled |
| ChatProtocol.DeliveryIsExact | boost_chat/chat_server.cpp:21-60 | in every reachable state each session's sent messages and queue are one gap-free stretch of the log, from 100 before its join to now or to its leaving; at most one write is outstanding, of the unchanged front; the room remembers exactly the last 100 messages |
| ChatProtocol.ParticipantsAgree | boost_chat/chat_server.cpp:29-35 | of two participants, the later one's stream is the end of the earlier one's |
| ChatProtocol.TrimDropsOne | boost_chat/chat_server.cpp:30-32 | the trim loop drops at most one message for each delivery, the oldest |
| ChatProtocol.ClientSeesLog | boost_chat/chat_server.cpp:87-102 | a client reading the bytes a session sent gets the bodies of that stretch of the log, in order, and is at a frame boundary |
| ChatTheorems.MessageIsWhatWasRead | boost_chat/chat_server.cpp:74-81 | a completed body read adds to the log the message of the received header and of the bytes read |
| ChatTheorems.LogInterleavesDeliveries | boost_chat/chat_server.cpp:29-35 | in every reachable state every entry of the log has one author, and the bodies of an author's entries are in order what that session has delivered |
| ChatTheorems.SessionReadsOn | boost_chat/chat_server.cpp:62-86 | for any headers and bodies that arrive at a session: it delivers them one after the other and awaits the next |
| ChatTheorems.LeavesOnFailure | boost_chat/chat_server.cpp:62-102 | an event takes a session out of the room if and only if it is a failed read, a refused header or a failed write of that session |
| ChatTheorems.ParticipantsRead | boost_chat/chat_server.cpp:62-86 | in every reachable state a session in the room has a read outstanding |
| ChatTheorems.EveryOutcomeMayHappen | boost_chat/chat_server.cpp:62-126 | the runs cover success with any bytes and failure of every pending operation |
| ChatTheorems.SessionDelivers | boost_chat/chat_server.cpp:62-86 | in every reachable state the bodies a session has delivered are what its received bytes decode to with four bytes after each body; those of a sender of frames only if nothing was sent |
| ChatProtocol.QueueDrains | boost_chat/chat_server.cpp:87-102 | with nothing new and no error the queue is sent in as many completions as it has messages |
| ChatTheorems.SilentExactly | boost_chat/chat_server.cpp:26-28 | a session never sends again, whatever happens, if and only if it has left and has no outstanding write |
| ChatTheorems.SilentForever | boost_chat/chat_server.cpp:26-28 | in that state what it has sent never changes |
| ChatTheorems.NextMessageIsSent | boost_chat/chat_server.cpp:29-60 | a run of a join and a delivery after which an idle session in the room has sent one message more |
| ChatTheorems.BodyFitsUpTo508 | boost_chat/chat_server.cpp:74-82 | the body read can complete inside the buffer if and only if the length is at most 508 |
| ChatTheorems.LongerBodiesAreAwaited | boost_chat/chat_server.cpp:62-73 | a run after which a longer body is awaited, for every length the header check admits above that |
| ChatServing.ChatSession.Start | boost_chat/chat_server.cpp:50-53 | the session is in the room with the replay queued and one header read begun |
| ChatServing.ChatSession.Deliver | boost_chat/chat_server.cpp:54-60 | the message is queued, and a write begun exactly if none was in progress |
| ChatServing.ChatSession.DoWrite | boost_chat/chat_server.cpp:87-92 | a write of the front of the queue is pending |
| ChatServing.ChatSession.OnHeaderRead | boost_chat/chat_server.cpp:62-73 | the header is decoded in the buffer; a body read, or leaving the room |
| ChatServing.ChatSession.OnBodyRead | boost_chat/chat_server.cpp:74-82 | the message in the buffer, with the bytes of the body read, goes to everyone in the room, the log and the memory, and the next header is read |
| ChatServing.ChatSession.OnBodyFailed | boost_chat/chat_server.cpp:82-84 | the session leaves |
| ChatServing.ChatSession.OnWrite | boost_chat/chat_server.cpp:87-102 | the sent message is popped and the next begun, or the session leaves |
| ChatServing.ChatSession.Complete | boost_chat/chat_server.cpp:62-102 | the completion of a pending operation does to the session what the protocol's step says |
| ChatServing.ChatRoom.Join | boost_chat/chat_server.cpp:21-25 | the participant is added and given every remembered message in order |
| ChatServing.ChatRoom.Leave | boost_chat/chat_server.cpp:26-28 | the participant is removed |
| ChatServing.ChatRoom.Remember | boost_chat/chat_server.cpp:30-32 | the trim loop terminates with the trimmed memory |
| ChatServing.ChatRoom.Deliver | boost_chat/chat_server.cpp:29-35 | the message is remembered and delivered once to every participant |
| ChatServing.ChatServer.constructor | boost_chat/chat_server.cpp:111-116 | an empty room and one pending accept |
| ChatServing.ChatServer.OnAccept | boost_chat/chat_server.cpp:118-126 | a new session if the accept succeeded, and in any case the next accept is pending |
| ChatServing.ChatServer.AddSession | boost_chat/chat_server.cpp:122-122 | a new session joins with its replay, the others unchanged |
| ChatServing.ChatServer.OnBody | boost_chat/chat_server.cpp:74-86 | a completed body read delivers to everyone in the room and reads on |
| ChatServing.ChatServer.OnOther | boost_chat/chat_server.cpp:62-102 | every other handler changes its own session and no other |
| ChatServing.ChatServer.Dispatch | boost_chat/chat_server.cpp:62-102 | each handler does to the objects what the protocol's step does to the room |
| ChatServing.ChatServer.Run | boost_chat/chat_server.cpp:62-126 | the event loop over the objects reaches the room the protocol reaches, for every run |
| ChatServing.ChatServer.ObjectsAreOk | boost_chat/chat_server.cpp:21-60 | of the objects themselves: the queue and what was sent are one stretch of the log, and a participant with something queued is writing; every `Run` keeps it so |
| ClientProtocol.StepKeepsOk | boost_chat/chat_client.cpp:20-91 | every handler keeps the invariant of pump and reader, whatever fails |
| ClientProtocol.RunKeepsOk | boost_chat/chat_client.cpp:20-91 | so does every run |
| ClientProtocol.RunExtends | boost_chat/chat_client.cpp:20-91 | no handler finds an empty queue to pop or a body longer than the buffer |
| ClientProtocol.SentThenQueued | boost_chat/chat_client.cpp:20-29 | in every reachable state sent followed by queued is what was accepted, even after errors; at most one write is outstanding, of the unchanged front |
| ClientProtocol.ShownIsDecoded | boost_chat/chat_client.cpp:43-73 | in every reachable state the received bytes decode to what was shown, and to one empty body more if and only if a header announced an empty body whose read has not succeeded |
| ClientProtocol.EmptyBodyIsNotShown | boost_chat/chat_client.cpp:59-73 | a concrete run at whose end an empty body has arrived and is not shown |
| ClientProtocol.ShowsWhatWasSent | boost_chat/chat_client.cpp:43-73 | while a prefix of some frames has arrived a prefix of their bodies was shown; all of them once all has arrived and the next header is awaited |
| ClientProtocol.EveryFrameIsShown | boost_chat/chat_client.cpp:34-73 | for any frames that arrive after the connect: the client shows them one after the other and awaits the next |
| ClientProtocol.FailedReadCloses | boost_chat/chat_client.cpp:51-72 | a failed read or refused header closes the socket, sets the flag and is the last read; a successful one does none of this |
| ClientProtocol.RequestOnlyCloses | boost_chat/chat_client.cpp:30-32 | a requested close changes nothing but the socket |
| ClientProtocol.FailedConnectStartsNothing | boost_chat/chat_client.cpp:34-42 | a failed connect starts and closes nothing |
| ClientProtocol.EveryOutcomeMayHappen | boost_chat/chat_client.cpp:20-91 | the runs cover success with any bytes and failure of every pending operation, and posting and closing at any time |
| ClientProtocol.MuteExactly | boost_chat/chat_client.cpp:20-29 | when nothing more is ever sent, as a condition on the current state, both directions |
| ClientProtocol.MuteForever | boost_chat/chat_client.cpp:20-29 | in such a state what was sent never changes, whatever happens |
| ClientProtocol.OneBurst | boost_chat/chat_client.cpp:74-91 | after the queue has run empty nothing accepted later is sent |
| ClientProtocol.SecondMessageIsNeverSent | boost_chat/chat_client.cpp:74-91 | a concrete run without any failure whose second message is accepted and never sent |
| ClientProtocol.RefusedIsFinal | boost_chat/chat_client.cpp:34-42 | after a failed connect nothing is ever sent |
| ClientProtocol.FailedWriteOnlyEnds | boost_chat/chat_client.cpp:78-90 | a failed write leaves queue, socket and reader as they were |
| ClientProtocol.FailureIsFinal | boost_chat/chat_client.cpp:78-90 | after a failed write nothing is sent again |
| ClientProtocol.QueueDrains | boost_chat/chat_client.cpp:74-91 | with nothing new and no error the queue is sent in as many completions as it has messages, and the socket closes with the last and not before |
| ChatClients.ChatClient.constructor | boost_chat/chat_client.cpp:13-19 | a connect is pending, and nothing else |
| ChatClients.ChatClient.Write | boost_chat/chat_client.cpp:20-29 | the message is accepted and queued, and a write begun exactly if the queue was empty |
| ChatClients.ChatClient.DoWrite | boost_chat/chat_client.cpp:74-77 | a write of the front of the queue is pending, begun on the socket as it is |
| ChatClients.ChatClient.OnConnect | boost_chat/chat_client.cpp:34-42 | the first header read begins if the connect succeeded |
| ChatClients.ChatClient.OnHeaderRead | boost_chat/chat_client.cpp:43-58 | the body read begins, or the socket is closed; the header is decoded again on the way out |
| ChatClients.ChatClient.OnBodyRead | boost_chat/chat_client.cpp:59-73 | the body is shown and the next header read, or the socket is closed |
| ChatClients.ChatClient.OnWriteDone | boost_chat/chat_client.cpp:74-91 | pop and begin the next write, close when there is none, and nothing at all after an error |
| ChatClients.ChatClient.Dispatch | boost_chat/chat_client.cpp:12-96 | each handler does to the object what the protocol's step does to the state |
| ChatClients.ChatClient.Run | boost_chat/chat_client.cpp:12-96 | the event loop over the object reaches the state the protocol reaches, for every run |

## Left out

- Consume: version numbers are unbounded integers; `VersionsFit` says, for every input, exactly when the 32-bit arithmetic of the code agrees with them.
- OnBodyRead: requires that the bytes stay inside the buffer; a body read that leaves it (`boost_chat/chat_server.cpp:77`, lengths 509 to 512) has no defined outcome and is not an event of the model.
- OnBody: requires the same of the bytes of a body read as `OnBodyRead`.
- ClientReadsFrames: stated for messages whose header was encoded; the client's `main` never calls `encode_header` (`boost_chat/chat_client.cpp:111`), so what it writes carries no length.
- HandleRequest: files are a map from name to content given with each request; a directory that can be opened counts as a file without content, and the file store does not change during one handler.
- UrlDecode: hexadecimal extraction is that of the C locale, for every pair of characters.
- Bytes are Dafny characters; every statement holds for all of them, and `EveryStringHasEncodings` restricts itself to values below 256.
- What the memory of uninitialised fields held (version numbers, the status of a new reply) is a parameter of the constructors.
- Server.all and ChatServer.all stand for the handlers, and the connections they keep alive, that the event loop holds.
- One room and one listening socket; the program starts one server for each port, which share nothing.
- What `write` and `close` of the client post is modelled from the moment the posted handler runs; the thread that posts and the queue in between are not.
- The misspelt `default` label of `http_server/reply.cpp:206` is unreachable, since a status is one of sixteen.
- asio itself, resolvers, sockets, threads, address and option handling in the constructors and in `main`, the shutdown call before the close, and all logging and console output.
- `action/`, `boost_alloc/`, `boost_buffer/`, the daytime programs and the timer tutorials: plumbing, or code without defined behaviour to state.
