/** The earlier driver, client/main.go: one command taken from the
    arguments, no loop, no All, and "BiDi" still wired to the unary test. Its
    testServerStreaming and testUnary are the same as in client/client.go
    and are modelled by Client.TestServerStreaming and Client.TestUnary. */
module LegacyClient {
  import opened GoStrings
  import opened Wire
  import opened Client

  const LegacyCommands: set<string> := {"Unary", "cStream", "sStream", "BiDi"}

  /** The switch of the earlier main. */
  function LegacyDispatch(command: string): (s: Step)
    ensures s.Run? <==> command in LegacyCommands
    ensures s.Run? ==> s.test in {Unary, ClientStreaming, ServerStreaming}
    ensures s.Usage? ==> s.command == command
    ensures command == "BiDi" ==> s == Run(Unary)
    ensures s.Run? && command != "BiDi" ==> CommandName(s.test) == command
  {
    if command == "Unary" then Run(Unary)
    else if command == "cStream" then Run(ClientStreaming)
    else if command == "sStream" then Run(ServerStreaming)
    else if command == "BiDi" then Run(Unary)
    else Usage(command)
  }

  /** The earlier main runs exactly one command: the argument, or Unary. */
  function LegacyMain(args: seq<string>): (s: Step)
    ensures |args| < 2 ==> s == Run(Unary)
    ensures |args| >= 2 ==> s == LegacyDispatch(args[1])
    ensures |args| >= 2 ==> (s.Run? <==> args[1] in LegacyCommands)
  {
    LegacyDispatch(InitialCommand(args))
  }

  /** The two revisions agree on every command except "BiDi", which the
      earlier one sends to the unary test, and "All", which it does not know. */
  lemma DispatchRevisions(command: string)
    ensures command == "BiDi" ==> LegacyDispatch(command) == Run(Unary) && Dispatch(command) == Run(Bidirectional)
    ensures command == "All" ==> LegacyDispatch(command) == Usage("All") && Dispatch(command) == Run(All)
    ensures command != "BiDi" && command != "All" ==> LegacyDispatch(command) == Dispatch(command)
  {
  }

  /** The prompts "0", "1", ..., the decimals of 0..n-1. */
  function Naturals(n: nat): seq<string> {
    seq(n, i requires 0 <= i < n => NatToString(i))
  }

  /** The earlier testClientStreaming: eleven sends of 0..10, then one
      CloseAndRecv; opening the call or getting the reply can be fatal. */
  method LegacyTestClientStreaming(created: Status, reply: Item<InferenceResponse>) returns (calls: seq<Call>, outcome: Outcome)
    ensures created.Failed? ==> calls == [] && outcome == Fatal(created.err)
    ensures created.Ok? ==> |calls| == 12 && calls[11] == CloseAndRecv
    ensures created.Ok? ==> forall i :: 0 <= i < 11 ==> calls[i] == SendRequest(NatToString(i))
    ensures created.Ok? ==> outcome == if reply.Fail? then Fatal(reply.err) else Completed
  {
    calls := [];
    if created.Failed? {
      return calls, Fatal(created.err);
    }
    for i := 0 to 11
      invariant |calls| == i
      invariant forall k :: 0 <= k < i ==> calls[k] == SendRequest(NatToString(k))
    {
      calls := calls + [SendRequest(NatToString(i))];
    }
    calls := calls + [CloseAndRecv];
    outcome := if reply.Fail? then Fatal(reply.err) else Completed;
  }
}
