/** What a driver sees when its calls meet the server handlers: the client's
    sends, in order and followed by its half-close, are the handler's Recv
    results, and the handler's delivered responses, followed by io.EOF when
    it returns nil, are the client's. */
module EndToEnd {
  import opened GoStrings
  import opened Wire
  import opened Server
  import opened Client
  import opened LegacyClient

  /** The stream sent by the drivers: the requests for the prompts, then the
      client's half-close. */
  function ClientSends(prompts: seq<string>): seq<Item<InferenceRequest>> {
    Msgs(Requests(prompts)) + [Fail(EOF)]
  }

  /** The Recv script a client-streaming handler sees for a call trace: each
      send is a message, CloseAndRecv is the half-close (io.EOF), and the
      client's own receives add nothing. */
  function Script(calls: seq<Call>): seq<Item<InferenceRequest>>
    decreases |calls|
  {
    if calls == [] then []
    else
      (match calls[0]
       case SendRequest(p) => [Msg(InferenceRequest(p))]
       case CloseAndRecv => [Fail(EOF)]
       case Recv => [])
      + Script(calls[1..])
  }

  /** A trace of sends of the prompts, in order, then CloseAndRecv gives the
      handler exactly those prompts and then io.EOF. */
  lemma {:induction false} SendsThenClose(calls: seq<Call>, prompts: seq<string>)
    requires |calls| == |prompts| + 1 && calls[|prompts|] == CloseAndRecv
    requires forall i :: 0 <= i < |prompts| ==> calls[i] == SendRequest(prompts[i])
    ensures Script(calls) == ClientSends(prompts)
    decreases |prompts|
  {
    if prompts == [] {
      assert calls == [CloseAndRecv];
      assert Script(calls) == [Fail(EOF)] + Script([]);
    } else {
      SendsThenClose(calls[1..], prompts[1..]);
      assert Script(calls) == [Msg(InferenceRequest(prompts[0]))] + Script(calls[1..]);
      assert Msgs(Requests(prompts)) == [Msg(InferenceRequest(prompts[0]))] + Msgs(Requests(prompts[1..]));
    }
  }

  /** Whatever trace the cStream test makes on an opened call, the handler
      receives the squares of 0..10 and then io.EOF. */
  lemma ClientStreamTrace(calls: seq<Call>)
    requires |calls| == 12 && calls[11] == CloseAndRecv
    requires forall i :: 0 <= i < 11 ==> calls[i] == SendRequest(NatToString(i * i))
    ensures Script(calls) == ClientSends(Squares(11))
  {
    SendsThenClose(calls, Squares(11));
  }

  /** The same for the earlier cStream test and the decimals of 0..10. */
  lemma LegacyClientStreamTrace(calls: seq<Call>)
    requires |calls| == 12 && calls[11] == CloseAndRecv
    requires forall i :: 0 <= i < 11 ==> calls[i] == SendRequest(NatToString(i))
    ensures Script(calls) == ClientSends(Naturals(11))
  {
    SendsThenClose(calls, Naturals(11));
  }

  /** The unary test gets "Today is sunny" and completes. */
  lemma UnaryScenario()
    ensures Score(InferenceRequest(UnaryPrompt)) == (InferenceResponse("Today is sunny"), Ok)
    ensures var reply := Msg(Score(InferenceRequest(UnaryPrompt)).0);
            TestUnary(reply) == (InferenceRequest(UnaryPrompt), Completed)
  {
    assert UnaryPrompt + Sunny == "Today is sunny";
  }

  lemma SmallDecimals()
    ensures NatToString(0) == "0" && NatToString(1) == "1" && NatToString(2) == "2"
    ensures NatToString(3) == "3" && NatToString(4) == "4" && NatToString(5) == "5"
    ensures NatToString(6) == "6" && NatToString(7) == "7" && NatToString(8) == "8"
    ensures NatToString(9) == "9" && NatToString(10) == "10" && NatToString(16) == "16"
    ensures NatToString(25) == "25" && NatToString(36) == "36" && NatToString(49) == "49"
    ensures NatToString(64) == "64" && NatToString(81) == "81" && NatToString(100) == "100"
  {
    assert NatToString(100) == NatToString(10) + [DigitChar(0)];
  }

  lemma SquaresText()
    ensures Squares(11) == ["0", "1", "4", "9", "16", "25", "36", "49", "64", "81", "100"]
  {
    SmallDecimals();
  }

  lemma NaturalsText()
    ensures Naturals(11) == ["0", "1", "2", "3", "4", "5", "6", "7", "8", "9", "10"]
  {
    SmallDecimals();
  }

  /** The cStream test of client/client.go gets
      "START __0__1__4__9__16__25__36__49__64__81__100 END": the squares of
      0..10 in order, each behind the separator, between the two markers. */
  lemma ClientStreamScenario()
    ensures AggregateLog(ClientSends(Squares(11)))
         == [InferenceResponse(StartMarker + PrefixEach(Separator, ["0", "1", "4", "9", "16", "25", "36", "49", "64", "81", "100"]) + EndMarker)]
  {
    SquaresText();
    AggregateInOrder(["0", "1", "4", "9", "16", "25", "36", "49", "64", "81", "100"], map[]);
  }

  /** The cStream test of client/main.go gets
      "START __0__1__2__3__4__5__6__7__8__9__10 END". */
  lemma LegacyClientStreamScenario()
    ensures AggregateLog(ClientSends(Naturals(11)))
         == [InferenceResponse(StartMarker + PrefixEach(Separator, ["0", "1", "2", "3", "4", "5", "6", "7", "8", "9", "10"]) + EndMarker)]
  {
    NaturalsText();
    AggregateInOrder(["0", "1", "2", "3", "4", "5", "6", "7", "8", "9", "10"], map[]);
  }

  /** What the sStream test's Recv calls return: the responses that reached
      it, then io.EOF once the handler returns nil. The handler returns nil
      even when a send fails, so the client is taken to see io.EOF in every
      case; that ending is part of this definition, not a result. */
  function ServerReplies(sendErrors: map<nat, Error>): seq<Item<InferenceResponse>> {
    Msgs(Delivered(StreamLog(ServerStreamingPrompt), sendErrors, 0)) + [Fail(EOF)]
  }

  /** The sStream test reads exactly the responses that reached it (and then
      the io.EOF that ServerReplies puts last); with no failed send it reads
      all ten. */
  lemma ServerStreamScenario(sendErrors: map<nat, Error>)
    ensures Leading(ServerReplies(sendErrors)) == Delivered(StreamLog(ServerStreamingPrompt), sendErrors, 0)
    ensures Stop(ServerReplies(sendErrors)) == EOF
    ensures (forall k :: k in sendErrors ==> k >= StreamCount) ==>
              Leading(ServerReplies(sendErrors)) == StreamLog(ServerStreamingPrompt)
  {
    var delivered := Delivered(StreamLog(ServerStreamingPrompt), sendErrors, 0);
    var eof: seq<Item<InferenceResponse>> := [Fail(EOF)];
    LeadingOfMsgs(delivered, eof);
    StopOfMsgs(delivered, eof);
    assert Leading(eof) == [] && Stop(eof) == EOF;
    assert delivered + [] == delivered;
    if forall k :: k in sendErrors ==> k >= StreamCount {
      StreamAllDelivered(ServerStreamingPrompt, sendErrors);
    }
  }

  /** Whatever fails, the sStream test reads at most ten responses, none it
      was not sent and none twice; response k reads "Input size is " + " " + k. */
  lemma ServerStreamBound(sendErrors: map<nat, Error>)
    ensures multiset(Leading(ServerReplies(sendErrors))) <= multiset(StreamLog(ServerStreamingPrompt))
    ensures |Leading(ServerReplies(sendErrors))| <= StreamCount
    ensures var read := Leading(ServerReplies(sendErrors));
            forall i, j :: 0 <= i < j < |read| ==> read[i] != read[j]
    ensures forall k :: 0 <= k < StreamCount ==>
              StreamLog(ServerStreamingPrompt)[k].result == ServerStreamingPrompt + " " + NatToString(k)
  {
    ServerStreamScenario(sendErrors);
    DeliveredWithin(StreamLog(ServerStreamingPrompt), sendErrors, 0);
    forall i, j | 0 <= i < j < StreamCount
      ensures StreamLog(ServerStreamingPrompt)[i] != StreamLog(ServerStreamingPrompt)[j]
    {
      StreamLogDistinct(ServerStreamingPrompt, i, j);
    }
    DeliveredDistinct(StreamLog(ServerStreamingPrompt), sendErrors, 0);
  }

  /** The number of Recv calls among calls. */
  function RecvCount(calls: seq<Call>): nat
    decreases |calls|
  {
    if calls == [] then 0
    else RecvCount(calls[..|calls| - 1]) + if calls[|calls| - 1] == Recv then 1 else 0
  }

  lemma RecvCountSnoc(calls: seq<Call>, c: Call)
    ensures RecvCount(calls + [c]) == RecvCount(calls) + if c == Recv then 1 else 0
  {
    assert (calls + [c])[..|calls|] == calls;
  }

  /** The calls for the first m prompts are the start of the calls for all. */
  lemma {:induction false} BiDiCallsPrefix(ps: seq<string>, m: nat)
    requires m <= |ps|
    ensures BiDiCalls(ps[..m]) <= BiDiCalls(ps)
    decreases |ps|
  {
    if m < |ps| {
      var n := |ps| - 1;
      BiDiCallsPrefix(ps[..n], m);
      assert ps[..n][..m] == ps[..m];
    } else {
      assert ps[..m] == ps;
    }
  }

  /** The client waits for one response per batch the server flushes: after
      sending the prompts qs it has made as many Recv calls as there are
      batches in Batches(qs). */
  lemma {:induction false} BiDiLockstep(qs: seq<string>)
    ensures RecvCount(BiDiCalls(qs)) == |Batches(qs)|
    decreases |qs|
  {
    if qs != [] {
      var n := |qs| - 1;
      var front := qs[..n];
      var prev := BiDiCalls(front);
      BiDiLockstep(front);
      assert |Batches(qs)| == (n + 2) / 2 && |Batches(front)| == (n + 1) / 2;
      RecvCountSnoc(prev, SendRequest(qs[n]));
      if n % 2 == 0 {
        assert BiDiCalls(qs) == prev + [SendRequest(qs[n])] + [Recv];
        RecvCountSnoc(prev + [SendRequest(qs[n])], Recv);
      } else {
        assert BiDiCalls(qs) == prev + [SendRequest(qs[n])];
      }
    }
  }

  /** The client's (j+1)-th Recv comes right after send 2j. */
  lemma BiDiRecvAfterSend(ps: seq<string>, j: nat)
    requires 2 * j < |ps|
    ensures BiDiCalls(ps[..2 * j + 1]) <= BiDiCalls(ps)
    ensures |BiDiCalls(ps[..2 * j + 1])| == 3 * j + 2
    ensures BiDiCalls(ps)[3 * j] == SendRequest(ps[2 * j]) && BiDiCalls(ps)[3 * j + 1] == Recv
    ensures RecvCount(BiDiCalls(ps[..2 * j + 1])) == j + 1
  {
    var qs := ps[..2 * j + 1];
    BiDiCallsPrefix(ps, 2 * j + 1);
    BiDiCallsLayout(qs);
    BiDiCallsLayout(ps);
    assert 2 * j + (2 * j + 1) / 2 == 3 * j;
    BiDiLockstep(qs);
  }

  /** No call waits for a response the server cannot yet send. Take a
      handler run that sent the batches of ps, batch k once it had made
      2k + 1 receives, as BidirectionalScore promises. The client's (j+1)-th
      Recv waits for batch j, and by then the client has sent exactly 2j + 1
      prompts: the number of receives after which the handler sends that
      batch. The batch is the one flushed for those prompts alone. */
  lemma BiDiNoDeadlock(ps: seq<string>, j: nat, sent: seq<InferenceResponse>, sentAfter: seq<nat>)
    requires 2 * j < |ps|
    requires sent == Batches(ps) && |sentAfter| == |sent|
    requires forall k :: 0 <= k < |sentAfter| ==> sentAfter[k] == 2 * k + 1
    ensures RecvCount(BiDiCalls(ps[..2 * j + 1])) == |Batches(ps[..2 * j + 1])| == j + 1
    ensures j < |sent| && sentAfter[j] == |ps[..2 * j + 1]|
    ensures sent[j] == Batches(ps[..2 * j + 1])[j]
  {
    var qs := ps[..2 * j + 1];
    BiDiRecvAfterSend(ps, j);
    assert qs[BatchStart(j)..2 * j + 1] == ps[BatchStart(j)..2 * j + 1];
  }

  /** Ten prompts sent without a half-close: the handler reads all ten,
      returns nil and sends their batches. */
  lemma BiDiOnTenPrompts(ps: seq<string>)
    requires |ps| == BiDiReceives
    ensures BiDiStatus(Msgs(Requests(ps))) == Ok
    ensures BiDiLog(Msgs(Requests(ps))) == Batches(ps) && |Batches(ps)| == 5
  {
    var none: seq<Item<InferenceRequest>> := [];
    var inbound := Msgs(Requests(ps));
    LeadingOfMsgs(Requests(ps), none);
    assert inbound + none == inbound && Leading(none) == [];
    assert Leading(inbound) == Requests(ps) + [];
    assert Prompts(Requests(ps) + []) == ps;
  }

  /** The BiDi test run against BidirectionalScore: the handler gets the
      squares of 0..9, returns nil and sends five batches, batch j once it
      has received 2j + 1 prompts, which is when the client's (j+1)-th Recv
      starts waiting. */
  method BiDiSession(sendErrors: map<nat, Error>) returns (status: Status, sent: seq<InferenceResponse>, ghost sentAfter: seq<nat>)
    ensures status == Ok && sent == Batches(Squares(10)) && |sent| == 5
    ensures |sentAfter| == |sent|
    ensures forall j :: 0 <= j < |sent| ==>
              sentAfter[j] == 2 * j + 1 && RecvCount(BiDiCalls(Squares(10)[..2 * j + 1])) == j + 1
  {
    var stream := new ServerStream(Msgs(Requests(Squares(10))), sendErrors);
    status := BidirectionalScore(stream);
    BiDiOnTenPrompts(Squares(10));
    sent, sentAfter := stream.attempted, stream.sentAfter;
    forall j | 0 <= j < |sent|
      ensures sentAfter[j] == 2 * j + 1 && RecvCount(BiDiCalls(Squares(10)[..2 * j + 1])) == j + 1
    {
      BiDiNoDeadlock(Squares(10), j, sent, sentAfter);
    }
  }

  lemma SquaresTen()
    ensures Squares(10) == ["0", "1", "4", "9", "16", "25", "36", "49", "64", "81"]
  {
    SmallDecimals();
  }

  /** What the handler receives in the BiDi test: the squares of 0..9. */
  lemma BiDiScenarioPrompts()
    ensures |Leading(Msgs(Requests(Squares(10))))| == 10
    ensures BiDiPrompts(Msgs(Requests(Squares(10)))) == ["0", "1", "4", "9", "16", "25", "36", "49", "64", "81"]
  {
    var sq := Squares(10);
    var none: seq<Item<InferenceRequest>> := [];
    var inbound := Msgs(Requests(sq));
    LeadingOfMsgs(Requests(sq), none);
    assert inbound + none == inbound && Leading(none) == [];
    assert Leading(inbound) == Requests(sq) + [];
    assert Prompts(Requests(sq) + []) == sq;
    SquaresTen();
  }

  lemma TenSquareBatches(ps: seq<string>)
    requires ps == ["0", "1", "4", "9", "16", "25", "36", "49", "64", "81"]
    ensures Batches(ps) == [BatchResponse(["0"]), BatchResponse(["1", "4"]), BatchResponse(["9", "16"]),
                            BatchResponse(["25", "36"]), BatchResponse(["49", "64"])]
  {
    assert ps[0..1] == ["0"];
    assert ps[1..3] == ["1", "4"];
    assert ps[3..5] == ["9", "16"];
    assert ps[5..7] == ["25", "36"];
    assert ps[7..9] == ["49", "64"];
  }

  /** The BiDi test of client/client.go: the handler receives the squares
      of 0..9, returns nil, and sends five batches, "BATCH START __0 BATCH
      END", "BATCH START __1__4 BATCH END" and so on up to "__49__64"; the
      prompt "81" is received but never sent back. */
  lemma BiDiScenario()
    ensures BiDiStatus(Msgs(Requests(Squares(10)))) == Ok
    ensures BiDiLog(Msgs(Requests(Squares(10))))
         == [BatchResponse(["0"]), BatchResponse(["1", "4"]), BatchResponse(["9", "16"]),
             BatchResponse(["25", "36"]), BatchResponse(["49", "64"])]
  {
    BiDiScenarioPrompts();
    TenSquareBatches(BiDiPrompts(Msgs(Requests(Squares(10)))));
  }
}
