# Scorer service: a Dafny model of its call-shape handlers and test driver

The Scorer service answers prompts over the four gRPC call shapes:

- **Unary** (`Score`): appends `" sunny"` to the prompt.
- **Client streaming** (`StreamingRequestScore`): collects the prompts after a
  `"START "` seed and answers once, on io.EOF, with `strings.Join(…, "__") + " END"`.
- **Server streaming** (`StreamingResponseScore`): sends `prompt + " " + k`
  for k = 0..9 and ignores send failures.
- **Bidirectional streaming** (`BidirectionalScore`): makes ten receives and
  flushes a `"BATCH START "`/`" BATCH END"` batch after each even-indexed one.

A companion client attaches a bearer token to every call. It picks a test from
its argument and then from lines typed on standard input, and runs the test
against the server.

The model has seven modules:

- `GoStrings` (`strings.dfy`): `strings.Join`, `strings.Trim` with a cutset,
  and the decimal text `%v` prints for a non-negative int.
- `Wire` (`wire.dfy`): the protobuf messages, Go errors, and `ServerStream`.
  `ServerStream` is the server side of one call's stream: a class whose `Recv`
  follows a given script and whose `Send` appends to an attempt log.
- `Server` (`server.dfy`): the four handlers. `Score` is a pure function of
  the request. Each streaming handler is an imperative method on a
  `ServerStream`, proved against a pure function of the inbound script (for
  the server-streaming handler, of the request), and
  lemmas about those functions state the handler's promises.
- `Mux` (`mux.dfy`): the order of the connection matchers the server registers.
- `Client` (`client.dfy`): the driver of `client/client.go`.
- `LegacyClient` (`legacy_client.dfy`): the earlier driver, `client/main.go`.
- `EndToEnd` (`end_to_end.dfy`): what each test of the driver gets from the
  handlers.

`server/main.go` is an earlier copy of the server. Its `Score` (lines 30-35),
`StreamingRequestScore` (lines 37-56) and `StreamingResponseScore` (lines
58-73) are identical to those in `server/server.go`. The same members model
both, and the table cites `server/server.go`. Likewise, `testUnary` (lines
62-68) and `testServerStreaming` (lines 91-113) in `client/main.go` differ
from those in `client/client.go` only in log text. `Client.TestUnary` and
`Client.TestServerStreaming` model both.

The transport is modelled as follows:

- What `Recv` returns is a script of `Msg(request)` and `Fail(error)` items.
- Reading past the end of the script gives io.EOF: the peer has half-closed.
- Whether each `Send` attempt reaches the peer is a map from attempt number to
  error.
- An expired deadline or a cancelled call is a `Transport` error item.

The aggregate for the prompts `0, 1, 4, …` is `"START __0__1__4…"`:
`strings.Join` puts the separator after the `"START "` seed as well
(`Server.AggregateInOrder`, `EndToEnd.ClientStreamScenario`).

## Model

| member | source | states |
|---|---|---|
| GoStrings.JoinAfterSeed | server/server.go:69-73 | Joining a list seeded with a marker puts the separator after the seed too: the result is the seed followed by sep + p for each part, in order |
| GoStrings.NatToString | server/server.go:93 | The `%v` text of a non-negative int is non-empty, all decimal digits, and starts with '0' only for 0 |
| GoStrings.NatToStringRoundTrip | server/server.go:93 | Reading the decimal text back as digits gives the number |
| GoStrings.NatToStringInjective | server/server.go:93 | Different numbers print differently |
| GoStrings.TrimLeftSpec | client/client.go:102 | Left trimming keeps a suffix, drops only cutset characters, and stops at the first character outside the cutset |
| GoStrings.TrimRightSpec | client/client.go:102 | Right trimming keeps a prefix, drops only cutset characters, and stops at the last character outside the cutset |
| GoStrings.TrimSpec | client/client.go:102 | `strings.Trim` with a cutset yields the middle part of the line that remains after dropping its leading cutset characters. That part does not end with a cutset character, and everything dropped is in the cutset |
| Wire.LeadingSpec | server/server.go:70-81 | The prompts a receive loop sees are exactly the messages before the first error of the script, and the item after them is that error (io.EOF past the end) |
| Wire.LeadingAt | server/server.go:110-115 | Receive i of the run of messages returns message i |
| Wire.LeadingOfMsgs | server/server.go:70-85 | A run of messages in front of a script is received in order ahead of whatever the script yields |
| Wire.StopOfMsgs | server/server.go:70-81 | The error that ends the receive loop is unaffected by messages in front of it |
| Wire.DeliveredAll | server/server.go:94-99 | When no send attempt fails, the peer gets every sent message in order |
| Wire.DeliveredIn | server/server.go:94-99 | Every message the peer gets was sent |
| Wire.DeliveredDistinct | server/server.go:94-99 | When no message is sent twice, the peer gets no message twice |
| Wire.DeliveredWithin | server/server.go:94-99 | The peer never gets a message that was not sent, nor any message more often than it was sent, nor more messages than were sent |
| Wire.ServerStream.constructor | server/server.go:68 | A handler starts on a stream with nothing received or sent |
| Wire.ServerStream.Recv | server/server.go:71 | Recv returns the next item of the script, and io.EOF once the script is used up; it keeps the stream's delivery invariant |
| Wire.ServerStream.Send | server/server.go:94-96 | Send appends one attempt; the response is delivered exactly when that attempt does not fail, and the attempt's error is returned. The stream records how many receives came before each send |
| Server.Score | server/server.go:61-66 | Score never fails; its result is the prompt followed by " sunny" |
| Server.ScoreInjective | server/server.go:63-65 | Different prompts never get the same response |
| Server.StreamingRequestScore | server/server.go:68-87 | The loop receives up to and including the first error. On io.EOF it sends exactly the aggregate of every prompt received and returns the send's status; on any other error it sends nothing and returns nil. The one send comes after the last receive, the io.EOF one |
| Server.AggregateInOrder | server/server.go:69-85 | Prompts p0..pn then io.EOF give exactly one response, "START " + "__"+p for each prompt in arrival order + " END"; the status is that of the single SendAndClose |
| Server.AggregateEmpty | server/server.go:69-73 | Immediate io.EOF gives exactly "START  END" |
| Server.AggregateReceiveError | server/server.go:79-81 | A non-EOF receive error, after any prompts and before anything else, gives no response and a nil status |
| Server.StreamingResponseScore | server/server.go:89-104 | Exactly ten send attempts, attempt k carrying prompt + " " + decimal(k); nothing is received and the call returns nil even when sends fail. Every send comes before any receive |
| Server.StreamLogIndex | server/server.go:92-96 | Response k is the prompt, a space, then text that reads back as k, so the indexes run 0..9 in send order |
| Server.StreamLogDistinct | server/server.go:92-96 | No two of the ten responses are equal |
| Server.StreamAllDelivered | server/server.go:94-99 | With no failing send the client gets all ten responses in order |
| Server.StreamFailureDropsOne | server/server.go:97-99 | A single failing send drops exactly that response; every other response is still delivered, in order |
| Server.DeliveredSplit | server/server.go:97-99 | Delivery around one failed attempt is delivery before it followed by delivery after it |
| Server.BatchesSnoc | server/server.go:115-124 | One more receive adds one batch exactly when its index is even; that batch holds the previous unflushed prompt, if any, and the new one |
| Server.BatchesStep | server/server.go:115-124 | Receive i appends prompt i to the pending batch. After an even receive the batch ("BATCH START " + the pending prompts joined with "__" + " BATCH END") becomes the next response and the pending batch restarts from the marker |
| Server.BiDiReceiveOutcome | server/server.go:110-115 | An error at receive i < 10 is the call's status and leaves exactly the i prompts before it; a message there is prompt i |
| Server.BiDiCompletes | server/server.go:109-129 | With ten messages available the call returns nil having read exactly the first ten |
| Server.BidirectionalScore | server/server.go:106-130 | At most ten receives. The sends are exactly the batches of the prompts received before the first receive error. The status is nil after ten messages, otherwise that receive error. Send failures are ignored. Batch k is sent right after receive 2k, when 2k + 1 receives have been made, and never after an odd receive |
| Server.BatchesIgnoreUnflushed | server/server.go:118-127 | What is sent depends only on the flushed prompts; a prompt left in an open batch never reaches the client |
| Server.BatchText | server/server.go:118-124 | Batch 0 is "BATCH START " + "__" + p0 + " BATCH END"; batch j > 0 holds exactly p(2j-1) and p(2j) |
| Server.BiDiFullRun | server/server.go:109-129 | Ten successful receives give status nil and exactly five responses, covering p0..p8; p9 is never sent |
| Server.BatchesFlushed | server/server.go:118-125 | The batches of n received prompts number (n+1)/2 and are those of the flushed prompts only |
| Server.BiDiErrorAt | server/server.go:110-114 | A receive error at receive k returns that error, after only the (k+1)/2 batches of the even receives before k; a partial batch is not flushed |
| Mux.CatchAllLastIsTotal | server/server.go:26-27 | A matcher list ending with the catch-all routes every connection |
| Mux.RoutingOrder | server/server.go:24-27 | With HTTP1Fast registered before Any, HTTP/1 connections go to the health-check server and all others to the gRPC server |
| Client.TokenAuth.GetRequestMetadata | client/client.go:23-27 | Exactly one metadata entry, "authorization" mapped to "Bearer " + token, and a nil error |
| Client.TokenAuth.RequireTransportSecurity | client/client.go:29-31 | The credentials always demand transport security |
| Client.MetadataRoundTrip | client/client.go:23-27 | The token is recovered exactly from the metadata a call carries |
| Client.Dispatch | client/client.go:65-97 | A command runs a test exactly when it is one of Unary, cStream, sStream, BiDi, All (case-sensitive), and runs the test of that name; anything else only logs the usage hint |
| Client.DispatchByName | client/client.go:65-92 | Every test is reachable by its name |
| Client.ExitLineExits | client/client.go:101-103 | The line "exit\r\n" trims to "exit" and ends the loop |
| Client.ExitIsCaseSensitive | client/client.go:101-103 | "EXIT\n" trims to "EXIT", which does not exit and is dispatched to the usage hint |
| Client.BlanksAreKept | client/client.go:102-103 | Only \r and \n are trimmed: " exit\n" becomes " exit", which does not exit |
| Client.InitialCommand | client/client.go:54-59 | The first command is os.Args[1], or "Unary" when no argument is given (the same rule as client/main.go lines 22-28) |
| Client.NextCommand | client/client.go:101-102 | The next command is the line read with its \r and \n ends trimmed: it neither starts nor ends with \r or \n |
| Client.IsExit | client/client.go:103-108 | Exactly "Exit" and "exit", read from stdin, end the loop before the switch; neither names a test, so either would only reach the usage hint |
| Client.ExitArgumentIsUsage | client/client.go:54-96 | An exit word ("Exit" or "exit") given as os.Args[1] is not checked for exit: it reaches the switch and only logs the usage hint |
| Client.DriverLoop | client/client.go:54-111 | The first pass dispatches os.Args[1], or "Unary" without one; pass j + 1 dispatches stdin line j with \r and \n trimmed. A pass goes on only when its test did not end in log.Fatalf and its line is not Exit/exit. The loop ends at the first pass whose test is fatal (with that error), else at the first Exit/exit line, else when the given lines run out. A usage hint and the bidirectional test are never fatal |
| Client.TestUnary | client/client.go:113-119 | The unary test sends "Today is", and ends fatally exactly when the call fails |
| Client.TestClientStreaming | client/client.go:121-140 | Eleven sends of decimal(i*i) for i = 0..10 in order, then one CloseAndRecv. A failed open or reply is fatal; nothing is sent when the open fails |
| Client.TestServerStreaming | client/client.go:142-164 | One request "Input size is ", then receives until the first io.EOF or error. Exactly the leading messages are kept, with one more receive for the terminating item; neither ending is fatal |
| Client.BiDiCallsLength | client/client.go:173-187 | Ten sends with a Recv after each even one: n sends make n + (n+1)/2 calls |
| Client.BiDiCallsAt | client/client.go:173-187 | Send i sits at position i + (i+1)/2 of the trace, with a Recv right after it when i is even |
| Client.BiDiCallsLayout | client/client.go:173-187 | Send i sits at position i + (i+1)/2 of the trace, and a Recv follows it exactly when i is even |
| Client.TestBiDirectionStreaming | client/client.go:166-190 | Ten sends of decimal(i*i) with a Recv after each even-indexed send; a failed open makes no calls, other errors do not stop the loop |
| LegacyClient.LegacyDispatch | client/main.go:33-58 | Unary, cStream, sStream and BiDi run a test. "BiDi" runs the unary test, and each of the other three runs the test of that name. "All" and any other string only log the usage hint |
| LegacyClient.LegacyMain | client/main.go:22-33 | The one command run is os.Args[1] through the earlier switch, or Unary without an argument |
| LegacyClient.DispatchRevisions | client/main.go:49-57 | The two drivers agree on every command except "BiDi" (unary here, bidirectional later) and "All" (unknown here) |
| LegacyClient.LegacyTestClientStreaming | client/main.go:70-89 | Eleven sends of decimal(i) for i = 0..10 in order, then one CloseAndRecv; a failed open or reply is fatal |
| EndToEnd.UnaryScenario | client/client.go:113-119 | Scoring the unary test's request gives "Today is sunny" with a nil error, and on that reply the test completes |
| EndToEnd.ClientStreamScenario | client/client.go:125-135 | The cStream test gets "START " + "__" before each of "0", "1", "4", "9", "16", "25", "36", "49", "64", "81", "100" + " END", that is "START __0__1__4__9__16__25__36__49__64__81__100 END" |
| EndToEnd.SendsThenClose | client/client.go:126-135 | A trace of sends of prompts, in order, then CloseAndRecv gives a client-streaming handler exactly those prompts and then io.EOF |
| EndToEnd.ClientStreamTrace | client/client.go:121-140 | Any trace the cStream test makes on an opened call gives the handler the squares of 0..10 and then io.EOF |
| EndToEnd.LegacyClientStreamScenario | client/main.go:75-84 | The earlier cStream test gets "START " + "__" before each of "0", "1", …, "10" + " END", that is "START __0__1__2__3__4__5__6__7__8__9__10 END" |
| EndToEnd.LegacyClientStreamTrace | client/main.go:70-89 | Any trace the earlier cStream test makes on an opened call gives the handler the decimals of 0..10 and then io.EOF |
| EndToEnd.ServerStreamScenario | client/client.go:152-163 | The sStream test reads exactly the responses delivered to it, then the io.EOF the model places after them; with no failed send it reads all ten |
| EndToEnd.ServerStreamBound | server/server.go:92-99 | Whatever fails, the sStream test reads at most ten responses, none that was not sent, and no two of them equal; response k is "Input size is " + " " + decimal(k) |
| EndToEnd.BiDiLockstep | client/client.go:173-187 | After sending any prefix of its prompts, the client has made as many Recv calls as the server has flushed batches for that prefix |
| EndToEnd.BiDiRecvAfterSend | client/client.go:173-187 | The client's (j+1)-th Recv comes right after send 2j, at position 3j+1 of the trace |
| EndToEnd.BiDiNoDeadlock | client/client.go:181-184 | For any handler run that sends the batches of the prompts, batch k after 2k + 1 receives (as BidirectionalScore promises): the client's (j+1)-th Recv waits for batch j, the client has sent exactly 2j + 1 prompts by then, and batch j is sent after exactly that many receives and is flushed from those prompts alone. So no Recv waits for a batch the handler cannot yet send |
| EndToEnd.BiDiOnTenPrompts | server/server.go:109-129 | Ten prompts with no half-close: the handler reads all ten, returns nil and sends their five batches |
| EndToEnd.BiDiSession | client/client.go:166-190 | BidirectionalScore run on the BiDi test's squares of 0..9 returns nil and sends their five batches. Batch j goes out after 2j + 1 receives, just when the client's (j+1)-th Recv starts waiting |
| EndToEnd.BiDiScenario | client/client.go:173-178 | For the squares of 0..9 the handler returns nil and sends the batches [0], [1,4], [9,16], [25,36], [49,64]; "81" is received and never sent back |

## Left out

- Transport: the gRPC transport, `grpc.Dial`, `grpc.NewServer`, `Serve`, `net.Listen`, TLS configuration and credential plumbing are foreign calls. What they return to a handler or test is a parameter.
- Mux: cmux decides inside its library whether a connection's first bytes look like HTTP/1. The model keeps only the matcher order and takes that decision as a boolean.
- The `/healthcheck` HTTP handler, `serveHTTP`, `serveGRPC` and the server's `main` are plain library wrappers and are not modelled.
- Logging and `time.Sleep` pacing have no observable effect on messages. The three-second `context.WithTimeout` is not modelled as a clock. The cStream test's eleven 250 ms pauses bring `CloseAndRecv` close to that deadline. A deadline or cancellation appears only as a `Transport` error in a receive script, a send outcome or a test's reply.
- The `All` command and `testAll` start tests on goroutines. The model records the dispatch to `All` but not the concurrent runs.
- Client.DriverLoop: stdin is a given list of lines. The model stops when the lines run out. The source would then read "" forever and log the usage hint on every pass.
- Client.DriverLoop: the source makes a new `bufio.Reader` on each pass, which can drop buffered input when stdin is piped. The model reads whole lines one at a time.
- Client.DriverLoop: the model does not record that Exit cancels the context and closes the connection.
- Client.DriverLoop: how each pass's test ends is a given per-pass outcome, not computed from the test run. A pass with no given outcome completes.
- Client.DriverLoop: a `log.Fatalf` in a goroutine started by `All` ends the process at some later moment. The model ends the loop at that pass.
- EndToEnd.ServerStreamScenario: the server-streaming client is taken to see io.EOF after the delivered responses even when a send failed. `ServerReplies` defines it that way.
- Client.TestClientStreaming, Client.TestServerStreaming, Client.TestBiDirectionStreaming and LegacyClient.LegacyTestClientStreaming: each test records the operations it performs on its stream. They are not connected to a transport. `EndToEnd` links a test to a handler by feeding one side's output into the other.
- Client.TestBiDirectionStreaming: send and receive errors only log, so the trace does not depend on them and they are not parameters.
- Wire.ServerStream.Send: `SendAndClose` is modelled as one more `Send`. Closing the stream after it is not modelled.
- Server handlers: each requires a fresh stream (`Unused`), as the transport gives each call its own stream.
- GoStrings.NatToString: `%v` is modelled only for non-negative ints, the only ones the service prints.
- EndToEnd.ClientStreamScenario and EndToEnd.LegacyClientStreamScenario: the reply is stated as the start marker, then `PrefixEach` ("__" before each prompt) over the literal prompt list, then the end marker. It is not stated as one string literal.
