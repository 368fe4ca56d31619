/** The driver of client/client.go: the per-call bearer token, the
    interactive command loop, and the requests and receives each test sends.
    Connections, contexts, sleeps and log lines are not modelled; what the
    transport returns to a call is a parameter, and a call's effect is the
    trace of stream operations it makes. */
module Client {
  import opened GoStrings
  import opened Wire

  // ------------------------------------------------------------- tokenAuth

  /** tokenAuth: per-call credentials carrying a bearer token. */
  datatype TokenAuth = TokenAuth(token: string) {

    /** GetRequestMetadata: a single "authorization" entry and a nil error. */
    function GetRequestMetadata(): (r: (map<string, string>, Status))
      ensures r.1 == Ok
      ensures r.0.Keys == {"authorization"}
      ensures r.0["authorization"] == "Bearer " + token
    {
      (map["authorization" := "Bearer " + token], Ok)
    }

    /** RequireTransportSecurity: the token is only ever sent over TLS. */
    function RequireTransportSecurity(): (required: bool)
      ensures required
    {
      true
    }
  }

  /** The token a server reads back from call metadata. */
  function BearerToken(md: map<string, string>): Option<string> {
    if "authorization" in md && |md["authorization"]| >= 7 && md["authorization"][..7] == "Bearer "
    then Some(md["authorization"][7..])
    else None
  }

  /** The metadata carries the token and nothing else can be read from it. */
  lemma MetadataRoundTrip(auth: TokenAuth)
    ensures BearerToken(auth.GetRequestMetadata().0) == Some(auth.token)
  {
    var v := "Bearer " + auth.token;
    assert v[..7] == "Bearer " && v[7..] == auth.token;
  }

  // ------------------------------------------------------------- commands

  /** The tests the driver can run. */
  datatype TestKind = Unary | ClientStreaming | ServerStreaming | Bidirectional | All

  /** One pass of the command loop: run a test, or log the usage hint. */
  datatype Step = Run(test: TestKind) | Usage(command: string)

  function CommandName(t: TestKind): string {
    match t
    case Unary => "Unary"
    case ClientStreaming => "cStream"
    case ServerStreaming => "sStream"
    case Bidirectional => "BiDi"
    case All => "All"
  }

  const Commands: set<string> := {"Unary", "cStream", "sStream", "BiDi", "All"}

  /** The first command: os.Args[1], or "Unary" when no argument is given. */
  function InitialCommand(args: seq<string>): (command: string)
    ensures |args| < 2 ==> command == "Unary"
    ensures |args| >= 2 ==> command == args[1]
  {
    if |args| < 2 then "Unary" else args[1]
  }

  /** The switch of the command loop: a known name runs its test, anything
      else (case matters) only logs the usage hint. */
  function Dispatch(command: string): (s: Step)
    ensures s.Run? <==> command in Commands
    ensures s.Run? ==> CommandName(s.test) == command
    ensures s.Usage? ==> s.command == command
  {
    if command == "Unary" then Run(Unary)
    else if command == "cStream" then Run(ClientStreaming)
    else if command == "sStream" then Run(ServerStreaming)
    else if command == "BiDi" then Run(Bidirectional)
    else if command == "All" then Run(All)
    else Usage(command)
  }

  /** Every test is reachable by its name. */
  lemma DispatchByName(t: TestKind)
    ensures Dispatch(CommandName(t)) == Run(t)
  {
  }

  const LineEnd: set<char> := {'\r', '\n'}

  /** The next command: the input line with leading and trailing \r and \n
      removed (TrimSpec says that what is left is the middle of the line,
      unchanged). */
  function NextCommand(line: string): (command: string)
    ensures command != [] ==> command[0] !in LineEnd && command[|command| - 1] !in LineEnd
  {
    TrimSpec(line, LineEnd);
    Trim(line, LineEnd)
  }

  /** Only a stdin line that trims to "Exit" or "exit" ends the loop, before
      the switch. Neither word names a test: given as os.Args[1] the word
      reaches the switch and only logs the usage hint. */
  predicate IsExit(command: string)
    ensures IsExit(command) ==> command !in Commands && Dispatch(command).Usage?
  {
    command == "Exit" || command == "exit"
  }

  /** A line "exit\r\n", as typed on a Windows terminal, ends the loop. */
  lemma ExitLineExits()
    ensures NextCommand("exit\r\n") == "exit" && IsExit(NextCommand("exit\r\n"))
  {
    var a := NextCommand("exit\r\n");
    TrimSpec("exit\r\n", LineEnd);
    var i := |"exit\r\n"| - |TrimLeft("exit\r\n", LineEnd)|;
    assert "exit\r\n"[0] !in LineEnd && "exit\r\n"[3] !in LineEnd;
    assert "exit\r\n"[4] in LineEnd && "exit\r\n"[5] in LineEnd;
    assert i == 0 && |a| == 4;
  }

  /** Case matters: "EXIT" is an unknown command that only logs the usage
      hint. */
  lemma ExitIsCaseSensitive()
    ensures NextCommand("EXIT\n") == "EXIT"
    ensures !IsExit(NextCommand("EXIT\n")) && Dispatch(NextCommand("EXIT\n")) == Usage("EXIT")
  {
    var b := NextCommand("EXIT\n");
    TrimSpec("EXIT\n", LineEnd);
    var j := |"EXIT\n"| - |TrimLeft("EXIT\n", LineEnd)|;
    assert "EXIT\n"[0] !in LineEnd && "EXIT\n"[3] !in LineEnd;
    assert j == 0 && |b| == 4;
  }

  /** Only \r and \n are trimmed: " exit" keeps its blank and does not exit. */
  lemma BlanksAreKept()
    ensures NextCommand(" exit\n") == " exit" && !IsExit(NextCommand(" exit\n"))
  {
    var c := NextCommand(" exit\n");
    TrimSpec(" exit\n", LineEnd);
    var k := |" exit\n"| - |TrimLeft(" exit\n", LineEnd)|;
    assert " exit\n"[0] !in LineEnd && " exit\n"[4] !in LineEnd;
    assert k == 0 && |c| == 5;
  }

  /** An exit word given as the argument is not checked for exit: the first
      pass dispatches it to the usage hint, and the loop goes on. */
  lemma ExitArgumentIsUsage(program: string, word: string)
    requires IsExit(word)
    ensures InitialCommand([program, word]) == word
    ensures Dispatch(InitialCommand([program, word])) == Usage(word)
  {
  }

  /** How the command loop ends: on an Exit/exit line, through a test's
      log.Fatalf, or (in the model only) when the given lines run out. */
  datatype Ending = Exited | Died(err: Error) | InputEnded

  /** How pass j ends, when outcomes[j] is how the test it runs ends. A usage
      hint never ends the process, and neither does the bidirectional test,
      which only logs its errors; a pass with no given outcome completes. */
  function PassOutcome(step: Step, outcomes: seq<Outcome>, j: nat): (o: Outcome)
    ensures o.Fatal? ==> step.Run? && step.test != Bidirectional && j < |outcomes| && o == outcomes[j]
  {
    if step.Run? && step.test != Bidirectional && j < |outcomes| then outcomes[j] else Completed
  }

  /** Pass j of the loop goes on to pass j + 1: its test did not end the
      process and the line it read is not Exit/exit. */
  predicate GoesOn(step: Step, outcomes: seq<Outcome>, j: nat, line: string) {
    !PassOutcome(step, outcomes, j).Fatal? && !IsExit(NextCommand(line))
  }

  /** The command loop of main, on the lines read from standard input: run
      the current command, read a line, stop on Exit/exit. outcomes[j] is how
      the test run by pass j ends; a Fatal one ends the process there. */
  method DriverLoop(args: seq<string>, lines: seq<string>, outcomes: seq<Outcome>) returns (steps: seq<Step>, ending: Ending)
    ensures 1 <= |steps| <= |lines| + 1
    ensures steps[0] == Dispatch(InitialCommand(args))
    ensures forall j {:trigger lines[j]} :: 0 <= j < |steps| - 1 ==>
              GoesOn(steps[j], outcomes, j, lines[j]) && steps[j + 1] == Dispatch(NextCommand(lines[j]))
    ensures ending.Died? <==> PassOutcome(steps[|steps| - 1], outcomes, |steps| - 1).Fatal?
    ensures ending.Died? ==> Fatal(ending.err) == PassOutcome(steps[|steps| - 1], outcomes, |steps| - 1)
    ensures ending.Exited? <==>
              (!ending.Died? && |steps| <= |lines| && IsExit(NextCommand(lines[|steps| - 1])))
    ensures ending.InputEnded? ==> |steps| == |lines| + 1
  {
    // The first pass runs the command from the arguments; each later pass
    // reads a line first and stops there on Exit/exit.
    steps := [Dispatch(InitialCommand(args))];
    var next := 0;
    var outcome := PassOutcome(steps[0], outcomes, 0);
    while next < |lines| && !outcome.Fatal? && !IsExit(NextCommand(lines[next]))
      invariant next <= |lines| && |steps| == next + 1
      invariant steps[0] == Dispatch(InitialCommand(args))
      invariant forall j {:trigger lines[j]} :: 0 <= j < next ==>
                  GoesOn(steps[j], outcomes, j, lines[j]) && steps[j + 1] == Dispatch(NextCommand(lines[j]))
      invariant outcome == PassOutcome(steps[next], outcomes, next)
    {
      assert GoesOn(steps[next], outcomes, next, lines[next]);
      steps := steps + [Dispatch(NextCommand(lines[next]))];
      next := next + 1;
      outcome := PassOutcome(steps[next], outcomes, next);
    }
    ending := if outcome.Fatal? then Died(outcome.err) else if next < |lines| then Exited else InputEnded;
  }

  // ---------------------------------------------------------------- tests

  /** An operation a test performs on its call's stream. */
  datatype Call = SendRequest(prompt: string) | CloseAndRecv | Recv

  /** How a test ends: normally, or through log.Fatalf. */
  datatype Outcome = Completed | Fatal(err: Error)

  const UnaryPrompt := "Today is"
  const ServerStreamingPrompt := "Input size is "

  /** testUnary: one Score call with "Today is"; an error is fatal. */
  function TestUnary(reply: Item<InferenceResponse>): (r: (InferenceRequest, Outcome))
    ensures r.0.prompt == UnaryPrompt
    ensures r.1.Fatal? <==> reply.Fail?
  {
    (InferenceRequest(UnaryPrompt), if reply.Fail? then Fatal(reply.err) else Completed)
  }

  /** The prompts "0", "1", "4", ..., the decimal squares of 0..n-1. */
  function Squares(n: nat): seq<string> {
    seq(n, i requires 0 <= i < n => NatToString(i * i))
  }

  /** testClientStreaming: eleven sends of the squares of 0..10, then one
      CloseAndRecv. Failing to open the call or to get the reply is fatal;
      send errors are not checked. */
  method TestClientStreaming(created: Status, reply: Item<InferenceResponse>) returns (calls: seq<Call>, outcome: Outcome)
    ensures created.Failed? ==> calls == [] && outcome == Fatal(created.err)
    ensures created.Ok? ==> |calls| == 12 && calls[11] == CloseAndRecv
    ensures created.Ok? ==> forall i :: 0 <= i < 11 ==> calls[i] == SendRequest(NatToString(i * i))
    ensures created.Ok? ==> outcome == if reply.Fail? then Fatal(reply.err) else Completed
  {
    calls := [];
    if created.Failed? {
      return calls, Fatal(created.err);
    }
    for i := 0 to 11
      invariant |calls| == i
      invariant forall k :: 0 <= k < i ==> calls[k] == SendRequest(NatToString(k * k))
    {
      calls := calls + [SendRequest(NatToString(i * i))];
    }
    calls := calls + [CloseAndRecv];
    outcome := if reply.Fail? then Fatal(reply.err) else Completed;
  }

  /** testServerStreaming: one request, then Recv until the first io.EOF or
      the first error, either of which ends the test without a fatal exit.
      replies is what successive Recv calls return. */
  method TestServerStreaming(created: Status, replies: seq<Item<InferenceResponse>>)
    returns (request: InferenceRequest, received: seq<InferenceResponse>, receives: nat, outcome: Outcome)
    ensures request.prompt == ServerStreamingPrompt
    ensures created.Failed? ==> received == [] && receives == 0 && outcome == Fatal(created.err)
    ensures created.Ok? ==> received == Leading(replies) && receives == |received| + 1 && outcome == Completed
  {
    request := InferenceRequest(ServerStreamingPrompt);
    received, receives := [], 0;
    LeadingSpec(replies);
    if created.Failed? {
      return request, received, receives, Fatal(created.err);
    }
    while true
      invariant receives <= |Leading(replies)|
      invariant received == Leading(replies)[..receives]
      decreases |Leading(replies)| - receives
    {
      var item := ItemAt(replies, receives);
      receives := receives + 1;
      if item.Fail? {
        assert receives - 1 == |Leading(replies)|;
        assert received == Leading(replies);
        return request, received, receives, Completed;
      }
      assert Leading(replies)[..receives] == received + [item.value];
      received := received + [item.value];
    }
  }

  /** The calls testBiDirectionStreaming makes for the prompts ps: each
      prompt is sent, and a Recv follows the sends with an even index. */
  function BiDiCalls(ps: seq<string>): seq<Call>
    decreases |ps|
  {
    if ps == [] then []
    else
      var i := |ps| - 1;
      BiDiCalls(ps[..i]) + [SendRequest(ps[i])] + if i % 2 == 0 then [Recv] else []
  }

  lemma {:induction false} BiDiCallsLength(ps: seq<string>)
    ensures |BiDiCalls(ps)| == |ps| + (|ps| + 1) / 2
    decreases |ps|
  {
    if ps != [] {
      BiDiCallsLength(ps[..|ps| - 1]);
    }
  }

  /** Send i sits at position i + (i + 1) / 2, followed by a Recv when i is
      even. */
  lemma {:induction false} BiDiCallsAt(ps: seq<string>, i: nat)
    requires i < |ps|
    ensures i + (i + 1) / 2 < |BiDiCalls(ps)|
    ensures BiDiCalls(ps)[i + (i + 1) / 2] == SendRequest(ps[i])
    ensures i % 2 == 0 ==> i + (i + 1) / 2 + 1 < |BiDiCalls(ps)| && BiDiCalls(ps)[i + (i + 1) / 2 + 1] == Recv
    decreases |ps|
  {
    var n := |ps| - 1;
    var front := ps[..n];
    var tail: seq<Call> := [SendRequest(ps[n])] + if n % 2 == 0 then [Recv] else [];
    assert BiDiCalls(ps) == BiDiCalls(front) + tail;
    BiDiCallsLength(front);
    if i < n {
      BiDiCallsAt(front, i);
      assert front[i] == ps[i];
    }
  }

  /** The whole layout: send i sits at position i + (i + 1) / 2 and is
      followed by a Recv exactly when i is even. */
  lemma BiDiCallsLayout(ps: seq<string>)
    ensures |BiDiCalls(ps)| == |ps| + (|ps| + 1) / 2
    ensures forall i :: 0 <= i < |ps| ==> BiDiCalls(ps)[i + (i + 1) / 2] == SendRequest(ps[i])
    ensures forall i :: 0 <= i < |ps| && i % 2 == 0 ==> BiDiCalls(ps)[i + (i + 1) / 2 + 1] == Recv
  {
    BiDiCallsLength(ps);
    forall i | 0 <= i < |ps|
      ensures BiDiCalls(ps)[i + (i + 1) / 2] == SendRequest(ps[i])
      ensures i % 2 == 0 ==> BiDiCalls(ps)[i + (i + 1) / 2 + 1] == Recv
    {
      BiDiCallsAt(ps, i);
    }
  }

  /** testBiDirectionStreaming: ten sends of the squares of 0..9 with a Recv
      after each even-indexed send. Failing to open the call only ends the
      test; send and receive errors are logged and the loop goes on. */
  method TestBiDirectionStreaming(created: Status) returns (calls: seq<Call>)
    ensures created.Failed? ==> calls == []
    ensures created.Ok? ==> calls == BiDiCalls(Squares(10))
  {
    calls := [];
    if created.Failed? {
      return;
    }
    for i := 0 to 10
      invariant calls == BiDiCalls(Squares(10)[..i])
    {
      assert Squares(10)[..i + 1][..i] == Squares(10)[..i];
      calls := calls + [SendRequest(NatToString(i * i))];
      if i % 2 == 0 {
        calls := calls + [Recv];
      }
    }
    assert Squares(10)[..10] == Squares(10);
  }
}
