/** The four handlers of scorerServer. server/server.go and the earlier
    server/main.go carry the same Score, StreamingRequestScore and
    StreamingResponseScore; BidirectionalScore exists only in server.go.
    Log lines and time.Sleep pacing have no observable effect here and are
    dropped. */
module Server {
  import opened GoStrings
  import opened Wire

  const Sunny := " sunny"
  const Separator := "__"
  const StartMarker := "START "
  const EndMarker := " END"
  const BatchStartMarker := "BATCH START "
  const BatchEndMarker := " BATCH END"
  /** Responses sent by StreamingResponseScore. */
  const StreamCount := 10
  /** Receives made by BidirectionalScore. */
  const BiDiReceives := 10

  // ---------------------------------------------------------------- Score

  /** Score: the unary call. It never fails, and its result is the prompt
      followed by " sunny". */
  function Score(request: InferenceRequest): (r: (InferenceResponse, Status))
    ensures r.1 == Ok
    ensures |r.0.result| == |request.prompt| + |Sunny|
    ensures r.0.result[..|request.prompt|] == request.prompt
    ensures r.0.result[|request.prompt|..] == Sunny
  {
    (InferenceResponse(request.prompt + Sunny), Ok)
  }

  /** The prompt is recoverable from the score: different prompts never get
      the same response. */
  lemma ScoreInjective(a: InferenceRequest, b: InferenceRequest)
    ensures Score(a).0 == Score(b).0 ==> a == b
  {
    if Score(a).0 == Score(b).0 {
      assert a.prompt == Score(a).0.result[..|a.prompt|];
    }
  }

  // ------------------------------------------------- StreamingRequestScore

  /** The responses StreamingRequestScore sends for the Recv script inbound:
      one, after io.EOF, joining the start marker and every prompt; none when
      another error ends the stream. */
  function AggregateLog(inbound: seq<Item<InferenceRequest>>): seq<InferenceResponse> {
    if Stop(inbound) == EOF then
      [InferenceResponse(Join([StartMarker] + Prompts(Leading(inbound)), Separator) + EndMarker)]
    else []
  }

  /** What StreamingRequestScore returns: SendAndClose's error after io.EOF,
      and nil after any other receive error. */
  function AggregateStatus(inbound: seq<Item<InferenceRequest>>, sendErrors: map<nat, Error>): Status {
    if Stop(inbound) == EOF then SendStatus(sendErrors, 0) else Ok
  }

  /** StreamingRequestScore: receives until an error; on io.EOF sends the
      aggregate once and returns SendAndClose's status; on any other error
      returns nil without sending. */
  method StreamingRequestScore(stream: ServerStream) returns (status: Status)
    requires stream.Unused() && stream.Valid()
    modifies stream
    ensures stream.Valid()
    ensures stream.received == |Leading(stream.inbound)| + 1
    ensures stream.attempted == AggregateLog(stream.inbound)
    ensures status == AggregateStatus(stream.inbound, stream.sendErrors)
    ensures forall k :: 0 <= k < |stream.sentAfter| ==> stream.sentAfter[k] == stream.received
  {
    LeadingSpec(stream.inbound);
    var result := [StartMarker];
    while true
      invariant stream.Valid()
      invariant stream.received <= |Leading(stream.inbound)|
      invariant result == [StartMarker] + Prompts(Leading(stream.inbound)[..stream.received])
      invariant stream.attempted == [] && stream.delivered == []
      decreases |Leading(stream.inbound)| - stream.received
    {
      ghost var before := stream.received;
      var item := stream.Recv();
      if item == Fail(EOF) {
        assert before == |Leading(stream.inbound)|;
        assert Leading(stream.inbound)[..before] == Leading(stream.inbound);
        var finalResult := Join(result, Separator) + EndMarker;
        status := stream.Send(InferenceResponse(finalResult));
        return;
      }
      if item.Fail? {
        return Ok;
      }
      ghost var leading := Leading(stream.inbound);
      assert before < |leading| && item.value == leading[before];
      assert Prompts(leading[..before + 1]) == Prompts(leading[..before]) + [item.value.prompt];
      result := result + [item.value.prompt];
    }
  }

  /** Prompts p0..pn followed by io.EOF give exactly one response,
      "START " then "__" + p for each prompt in arrival order, then " END";
      the call's status is that of the one send. */
  lemma AggregateInOrder(prompts: seq<string>, sendErrors: map<nat, Error>)
    ensures AggregateLog(Msgs(Requests(prompts)) + [Fail(EOF)])
         == [InferenceResponse(StartMarker + PrefixEach(Separator, prompts) + EndMarker)]
    ensures AggregateStatus(Msgs(Requests(prompts)) + [Fail(EOF)], sendErrors) == SendStatus(sendErrors, 0)
  {
    var eof: seq<Item<InferenceRequest>> := [Fail(EOF)];
    var inbound := Msgs(Requests(prompts)) + eof;
    LeadingOfMsgs(Requests(prompts), eof);
    StopOfMsgs(Requests(prompts), eof);
    assert Leading(eof) == [] && Stop(eof) == EOF;
    assert Leading(inbound) == Requests(prompts) + [];
    assert Prompts(Requests(prompts) + []) == prompts;
    JoinAfterSeed(StartMarker, prompts, Separator);
  }

  /** A client that half-closes at once gets only the markers. */
  lemma AggregateEmpty()
    ensures AggregateLog([Fail(EOF)]) == [InferenceResponse("START  END")]
  {
    AggregateInOrder([], map[]);
    assert Msgs(Requests([])) + [Fail(EOF)] == [Fail(EOF)];
    assert PrefixEach(Separator, []) == "";
    assert StartMarker + "" + EndMarker == "START  END";
  }

  /** A receive error other than io.EOF ends the call with nil and no
      response, whatever was received before it and whatever follows. */
  lemma AggregateReceiveError(prompts: seq<string>, reason: string, rest: seq<Item<InferenceRequest>>, sendErrors: map<nat, Error>)
    ensures AggregateLog(Msgs(Requests(prompts)) + [Fail(Transport(reason))] + rest) == []
    ensures AggregateStatus(Msgs(Requests(prompts)) + [Fail(Transport(reason))] + rest, sendErrors) == Ok
  {
    var tail := [Fail(Transport(reason))] + rest;
    LeadingOfMsgs(Requests(prompts), tail);
    StopOfMsgs(Requests(prompts), tail);
    assert Leading(tail) == [] && Stop(tail) == Transport(reason);
    assert Msgs(Requests(prompts)) + [Fail(Transport(reason))] + rest == Msgs(Requests(prompts)) + tail;
  }

  // ------------------------------------------------ StreamingResponseScore

  /** The responses StreamingResponseScore attempts: prompt + " " + k for
      k = 0..9, in that order. */
  function StreamLog(prompt: string): seq<InferenceResponse> {
    seq(StreamCount, k requires 0 <= k < StreamCount => InferenceResponse(prompt + " " + NatToString(k)))
  }

  /** StreamingResponseScore: ten sends; a failed send is only logged, so the
      loop goes on and the call returns nil. */
  method StreamingResponseScore(request: InferenceRequest, stream: ServerStream) returns (status: Status)
    requires stream.Unused() && stream.Valid()
    modifies stream
    ensures stream.Valid()
    ensures status == Ok
    ensures stream.received == 0
    ensures stream.attempted == StreamLog(request.prompt)
    ensures forall k :: 0 <= k < |stream.sentAfter| ==> stream.sentAfter[k] == 0
  {
    var prompt := request.prompt;
    for i := 0 to StreamCount
      invariant stream.Valid()
      invariant stream.received == 0
      invariant stream.attempted == StreamLog(prompt)[..i]
      invariant forall k :: 0 <= k < |stream.sentAfter| ==> stream.sentAfter[k] == 0
    {
      var result := prompt + " " + NatToString(i);
      var err := stream.Send(InferenceResponse(result));
      assert StreamLog(prompt)[..i + 1] == StreamLog(prompt)[..i] + [InferenceResponse(result)];
    }
    return Ok;
  }

  /** Each response carries its index: the text after the prompt and a space
      reads back as k, so the indexes run 0..9 in send order. */
  lemma StreamLogIndex(prompt: string, k: nat)
    requires k < StreamCount
    ensures StreamLog(prompt)[k].result[..|prompt| + 1] == prompt + " "
    ensures DigitsValue(StreamLog(prompt)[k].result[|prompt| + 1..]) == k
  {
    var r := StreamLog(prompt)[k].result;
    assert r[|prompt| + 1..] == NatToString(k);
    NatToStringRoundTrip(k);
  }

  /** No two of the ten responses are the same. */
  lemma StreamLogDistinct(prompt: string, j: nat, k: nat)
    requires j < k < StreamCount
    ensures StreamLog(prompt)[j] != StreamLog(prompt)[k]
  {
    StreamLogIndex(prompt, j);
    StreamLogIndex(prompt, k);
  }

  /** When no send fails the client gets all ten responses, in order. */
  lemma StreamAllDelivered(prompt: string, sendErrors: map<nat, Error>)
    requires forall k :: k in sendErrors ==> k >= StreamCount
    ensures Delivered(StreamLog(prompt), sendErrors, 0) == StreamLog(prompt)
  {
    DeliveredAll(StreamLog(prompt), sendErrors, 0);
  }

  /** A failed send drops exactly that response: the others still go out. */
  lemma {:induction false} StreamFailureDropsOne(prompt: string, failing: nat, e: Error)
    requires failing < StreamCount
    ensures Delivered(StreamLog(prompt), map[failing := e], 0)
         == StreamLog(prompt)[..failing] + StreamLog(prompt)[failing + 1..]
  {
    var log := StreamLog(prompt);
    var errs := map[failing := e];
    DeliveredAll(log[..failing], errs, 0);
    DeliveredAll(log[failing + 1..], errs, failing + 1);
    DeliveredSplit(log, failing, errs);
  }

  /** Delivered over a log with one failing attempt splits at it. */
  lemma {:induction false} DeliveredSplit(log: seq<InferenceResponse>, failing: nat, errs: map<nat, Error>)
    requires failing < |log| && errs.Keys == {failing}
    ensures Delivered(log, errs, 0)
         == Delivered(log[..failing], errs, 0) + Delivered(log[failing + 1..], errs, failing + 1)
    decreases |log|
  {
    var last := |log| - 1;
    if last == failing {
      assert log[..last][..failing] == log[..failing];
      assert log[failing + 1..] == [];
    } else {
      DeliveredSplit(log[..last], failing, errs);
      assert log[..last][..failing] == log[..failing];
      var tail := log[failing + 1..];
      assert tail[..|tail| - 1] == log[..last][failing + 1..];
      assert tail[|tail| - 1] == log[last];
    }
  }

  // ---------------------------------------------------- BidirectionalScore

  /** Index of the first prompt in batch j: batch 0 holds receive 0 alone,
      batch j > 0 holds receives 2j-1 and 2j. */
  function BatchStart(j: nat): nat {
    if j == 0 then 0 else 2 * j - 1
  }

  function BatchResponse(group: seq<string>): InferenceResponse {
    InferenceResponse(Join([BatchStartMarker] + group, Separator) + BatchEndMarker)
  }

  /** The batches flushed once the prompts ps have been received: one after
      each even-indexed receive, holding the prompts since the last flush. */
  function Batches(ps: seq<string>): seq<InferenceResponse> {
    seq((|ps| + 1) / 2, j requires 0 <= j < (|ps| + 1) / 2 => BatchResponse(ps[BatchStart(j)..2 * j + 1]))
  }

  /** The prompts BidirectionalScore receives: at most ten, up to the first
      receive error. */
  function BiDiPrompts(inbound: seq<Item<InferenceRequest>>): seq<string> {
    var ps := Prompts(Leading(inbound));
    if |ps| <= BiDiReceives then ps else ps[..BiDiReceives]
  }

  function BiDiLog(inbound: seq<Item<InferenceRequest>>): seq<InferenceResponse> {
    Batches(BiDiPrompts(inbound))
  }

  /** nil after ten receives, otherwise the receive error. */
  function BiDiStatus(inbound: seq<Item<InferenceRequest>>): Status {
    if |Leading(inbound)| >= BiDiReceives then Ok else Failed(Stop(inbound))
  }

  /** One more receive adds a batch exactly when its index is even. */
  lemma BatchesSnoc(ps: seq<string>, p: string)
    ensures Batches(ps + [p]) == Batches(ps) + if |ps| % 2 == 0
      then [BatchResponse((if ps == [] then [] else [ps[|ps| - 1]]) + [p])]
      else []
  {
    var qs := ps + [p];
    var n := |ps|;
    forall j | 0 <= j < (n + 1) / 2
      ensures Batches(qs)[j] == Batches(ps)[j]
    {
      assert qs[BatchStart(j)..2 * j + 1] == ps[BatchStart(j)..2 * j + 1];
    }
    if n % 2 == 0 {
      assert qs[BatchStart(n / 2)..n + 1] == (if ps == [] then [] else [ps[n - 1]]) + [p];
    }
  }

  /** The batch BidirectionalScore holds before receive i: the marker, and
      before an even receive i > 0 also prompt i - 1, which receive i - 1
      left unflushed. */
  function Pending(ps: seq<string>, i: nat): seq<string>
    requires i <= |ps|
  {
    [BatchStartMarker] + if i % 2 == 0 && i > 0 then [ps[i - 1]] else []
  }

  /** Receive i appends prompt i to the pending batch; when i is even the
      batch is flushed as the next response and the pending batch starts
      over. */
  lemma BatchesStep(ps: seq<string>, i: nat)
    requires i < |ps|
    ensures Batches(ps[..i + 1]) == Batches(ps[..i])
      + if i % 2 == 0 then [InferenceResponse(Join(Pending(ps, i) + [ps[i]], Separator) + BatchEndMarker)] else []
    ensures Pending(ps, i + 1) == if i % 2 == 0 then [BatchStartMarker] else Pending(ps, i) + [ps[i]]
  {
    var front := ps[..i];
    assert ps[..i + 1] == front + [ps[i]];
    BatchesSnoc(front, ps[i]);
    if i % 2 == 0 {
      assert Pending(ps, i) + [ps[i]] == [BatchStartMarker] + ((if front == [] then [] else [front[i - 1]]) + [ps[i]]);
    }
  }

  /** BidirectionalScore: ten receives; after each even-indexed one the batch
      is joined, sent and reset. A receive error ends the call with that
      error and the partial batch is not sent; a send error is ignored. */
  method BidirectionalScore(stream: ServerStream) returns (status: Status)
    requires stream.Unused() && stream.Valid()
    modifies stream
    ensures stream.Valid()
    ensures status == BiDiStatus(stream.inbound)
    ensures stream.attempted == BiDiLog(stream.inbound)
    ensures stream.received == if |Leading(stream.inbound)| >= BiDiReceives then BiDiReceives
                               else |Leading(stream.inbound)| + 1
    ensures forall k :: 0 <= k < |stream.sentAfter| ==> stream.sentAfter[k] == 2 * k + 1
  {
    ghost var all := Prompts(Leading(stream.inbound));
    var result := [BatchStartMarker];
    var i := 0;
    while i < BiDiReceives
      invariant 0 <= i <= BiDiReceives && i <= |all|
      invariant stream.Valid() && stream.received == i
      invariant result == Pending(all, i)
      invariant stream.attempted == Batches(all[..i])
      invariant forall k :: 0 <= k < |stream.sentAfter| ==> stream.sentAfter[k] == 2 * k + 1
    {
      var item := stream.Recv();
      BiDiReceiveOutcome(stream.inbound, i);
      if item.Fail? {
        return Failed(item.err);
      }
      BatchesStep(all, i);
      result := result + [item.value.prompt];
      if i % 2 == 0 {
        var batchResult := Join(result, Separator) + BatchEndMarker;
        var _ := stream.Send(InferenceResponse(batchResult));
        result := [BatchStartMarker];
      }
      i := i + 1;
    }
    BiDiCompletes(stream.inbound);
    return Ok;
  }

  /** Receive i < 10 of BidirectionalScore: an error there is the stopping
      error and leaves exactly the prompts before it; a message there is
      prompt i. */
  lemma BiDiReceiveOutcome(inbound: seq<Item<InferenceRequest>>, i: nat)
    requires i < BiDiReceives && i <= |Leading(inbound)|
    ensures ItemAt(inbound, i).Fail? ==>
              i == |Leading(inbound)| && BiDiStatus(inbound) == Failed(ItemAt(inbound, i).err)
              && BiDiPrompts(inbound) == Prompts(Leading(inbound))[..i]
    ensures ItemAt(inbound, i).Msg? ==>
              i < |Leading(inbound)| && ItemAt(inbound, i).value.prompt == Prompts(Leading(inbound))[i]
  {
    var all := Prompts(Leading(inbound));
    LeadingSpec(inbound);
    if i < |Leading(inbound)| {
      LeadingAt(inbound, i);
    } else {
      assert all[..i] == all;
    }
  }

  /** Ten messages: BidirectionalScore returns nil having read the first ten. */
  lemma BiDiCompletes(inbound: seq<Item<InferenceRequest>>)
    requires |Leading(inbound)| >= BiDiReceives
    ensures BiDiStatus(inbound) == Ok
    ensures BiDiPrompts(inbound) == Prompts(Leading(inbound))[..BiDiReceives]
  {
    var all := Prompts(Leading(inbound));
    if |all| == BiDiReceives {
      assert all[..BiDiReceives] == all;
    }
  }


  /** How many of the received prompts n the flushed batches cover: all of
      them after an even-indexed receive, all but the last otherwise. */
  function Flushed(n: nat): nat {
    if n % 2 == 1 || n == 0 then n else n - 1
  }

  /** Two sequences with the same first f elements agree on every slice
      inside them. */
  lemma SlicesAgree(ps: seq<string>, qs: seq<string>, f: nat, b: nat, e: nat)
    requires b <= e <= f <= |ps| && f <= |qs| && ps[..f] == qs[..f]
    ensures ps[b..e] == qs[b..e]
  {
    forall k | 0 <= k < e - b
      ensures ps[b..e][k] == qs[b..e][k]
    {
      assert ps[b + k] == ps[..f][b + k] == qs[..f][b + k] == qs[b + k];
    }
  }

  /** The batches depend only on the flushed prompts: a prompt left in an
      unflushed batch never reaches the client. */
  lemma BatchesIgnoreUnflushed(ps: seq<string>, qs: seq<string>)
    requires |ps| == |qs| && ps[..Flushed(|ps|)] == qs[..Flushed(|ps|)]
    ensures Batches(ps) == Batches(qs)
  {
    var f := Flushed(|ps|);
    forall j | 0 <= j < (|ps| + 1) / 2
      ensures Batches(ps)[j] == Batches(qs)[j]
    {
      SlicesAgree(ps, qs, f, BatchStart(j), 2 * j + 1);
    }
  }

  /** Batch j as text: the batch marker, then "__" + p for each of its prompts,
      then the end marker. Batch 0 holds p0 alone; batch j > 0 holds exactly
      p(2j-1) and p(2j). */
  lemma BatchText(ps: seq<string>, j: nat)
    requires j < (|ps| + 1) / 2
    ensures j == 0 ==> Batches(ps)[j].result
                       == BatchStartMarker + Separator + ps[0] + BatchEndMarker
    ensures j > 0 ==> Batches(ps)[j].result
                      == BatchStartMarker + Separator + ps[2 * j - 1] + Separator + ps[2 * j] + BatchEndMarker
  {
    var group := ps[BatchStart(j)..2 * j + 1];
    JoinAfterSeed(BatchStartMarker, group, Separator);
    if j == 0 {
      assert group == [ps[0]] && group[1..] == [];
    } else {
      assert group == [ps[2 * j - 1], ps[2 * j]];
      assert group[1..] == [ps[2 * j]] && [ps[2 * j]][1..] == [];
      assert PrefixEach(Separator, [ps[2 * j]]) == Separator + ps[2 * j];
    }
  }

  /** Ten successful receives: the call returns nil after exactly five sends,
      one after each of receives 0, 2, 4, 6, 8, and they hold exactly the
      prompts p0..p8; p9 is never sent. */
  lemma BiDiFullRun(inbound: seq<Item<InferenceRequest>>)
    requires |Leading(inbound)| >= BiDiReceives
    ensures BiDiStatus(inbound) == Ok
    ensures |BiDiPrompts(inbound)| == 10 && |BiDiLog(inbound)| == 5
    ensures BiDiLog(inbound) == Batches(BiDiPrompts(inbound)[..9] + [""])
  {
    var ps := BiDiPrompts(inbound);
    BatchesIgnoreUnflushed(ps, ps[..9] + [""]);
  }

  /** A receive error at receive k < 10: the call returns that error, having
      sent only the batches closed by the even receives before k; the prompts
      of an open batch are dropped. */
  lemma BiDiErrorAt(inbound: seq<Item<InferenceRequest>>)
    requires |Leading(inbound)| < BiDiReceives
    ensures BiDiStatus(inbound) == Failed(Stop(inbound))
    ensures ItemAt(inbound, |Leading(inbound)|) == Fail(Stop(inbound))
    ensures |BiDiLog(inbound)| == (|Leading(inbound)| + 1) / 2
    ensures BiDiLog(inbound) == Batches(BiDiPrompts(inbound)[..Flushed(|Leading(inbound)|)])
  {
    LeadingSpec(inbound);
    var ps := BiDiPrompts(inbound);
    assert ps == Prompts(Leading(inbound)) && |ps| == |Leading(inbound)|;
    BatchesFlushed(ps);
  }

  /** The batches of a prompt list are those of its flushed prefix. */
  lemma BatchesFlushed(ps: seq<string>)
    ensures |Batches(ps)| == (|ps| + 1) / 2
    ensures Batches(ps) == Batches(ps[..Flushed(|ps|)])
  {
    var k := |ps|;
    if k % 2 == 0 && k > 0 {
      var front := ps[..k - 1];
      BatchesSnoc(front, ps[k - 1]);
      assert front + [ps[k - 1]] == ps;
    } else {
      assert ps[..Flushed(k)] == ps;
    }
  }
}
