/** The messages of the Scorer service and the call-scoped stream that the
    RPC transport hands to a handler. The transport itself is not modelled:
    what Recv returns is a given script, and whether each Send reaches the
    peer is a given outcome per send attempt. */
module Wire {

  datatype Option<T> = None | Some(value: T)

  /** InferenceRequest{Prompt} of the protobuf schema. */
  datatype InferenceRequest = InferenceRequest(prompt: string)

  /** InferenceResponse{Result} of the protobuf schema. */
  datatype InferenceResponse = InferenceResponse(result: string)

  /** The Go error values the handlers tell apart: io.EOF, and any other
      transport error (a cancelled call, an expired deadline, a broken
      connection). */
  datatype Error = EOF | Transport(reason: string)

  /** A Go `error` result: nil, or an error. */
  datatype Status = Ok | Failed(err: Error)

  /** What one Recv call returns: a message, or an error (io.EOF included). */
  datatype Item<T> = Msg(value: T) | Fail(err: Error)

  /** The result of the i-th Recv on a stream whose script is items: once the
      script is used up, the peer has half-closed and Recv reports io.EOF. */
  function ItemAt<T>(items: seq<Item<T>>, i: nat): Item<T> {
    if i < |items| then items[i] else Fail(EOF)
  }

  /** The messages before the first error of a Recv script. */
  function Leading<T>(items: seq<Item<T>>): seq<T>
    decreases |items|
  {
    if items == [] || items[0].Fail? then [] else [items[0].value] + Leading(items[1..])
  }

  /** Leading is the run of messages at the front of the script, and the
      item after it is an error. */
  lemma {:induction false} LeadingSpec<T>(items: seq<Item<T>>)
    ensures |Leading(items)| <= |items|
    ensures forall i :: 0 <= i < |Leading(items)| ==> items[i] == Msg(Leading(items)[i])
    ensures ItemAt(items, |Leading(items)|) == Fail(Stop(items))
    decreases |items|
  {
    if items != [] && items[0].Msg? {
      LeadingSpec(items[1..]);
    }
  }

  /** The error that ends the run of messages: the first error in the script,
      or io.EOF when the script has none. */
  function Stop<T>(items: seq<Item<T>>): Error
    decreases |items|
  {
    if items == [] then EOF
    else if items[0].Fail? then items[0].err
    else Stop(items[1..])
  }

  /** Receive number i of the run is message i. */
  lemma LeadingAt<T>(items: seq<Item<T>>, i: nat)
    requires i < |Leading(items)|
    ensures i < |items| && items[i] == Msg(Leading(items)[i])
  {
    LeadingSpec(items);
  }

  /** A script of messages only. */
  function Msgs<T>(vs: seq<T>): seq<Item<T>> {
    seq(|vs|, i requires 0 <= i < |vs| => Msg(vs[i]))
  }

  /** A run of messages in front of a script adds exactly those messages in
      front of what the script yields. */
  lemma {:induction false} LeadingOfMsgs<T>(vs: seq<T>, rest: seq<Item<T>>)
    ensures Leading(Msgs(vs) + rest) == vs + Leading(rest)
    decreases |vs|
  {
    var items := Msgs(vs) + rest;
    if vs == [] {
      assert items == rest;
    } else {
      assert items[0] == Msg(vs[0]);
      assert items[1..] == Msgs(vs[1..]) + rest;
      LeadingOfMsgs(vs[1..], rest);
      calc {
        Leading(items);
        [vs[0]] + Leading(items[1..]);
        [vs[0]] + (vs[1..] + Leading(rest));
        { assert [vs[0]] + vs[1..] == vs; }
        vs + Leading(rest);
      }
    }
  }

  /** ... and the run ends the way the script does. */
  lemma {:induction false} StopOfMsgs<T>(vs: seq<T>, rest: seq<Item<T>>)
    ensures Stop(Msgs(vs) + rest) == Stop(rest)
    decreases |vs|
  {
    var items := Msgs(vs) + rest;
    if vs == [] {
      assert items == rest;
    } else {
      assert items[0] == Msg(vs[0]);
      assert items[1..] == Msgs(vs[1..]) + rest;
      StopOfMsgs(vs[1..], rest);
    }
  }

  function Requests(prompts: seq<string>): seq<InferenceRequest> {
    seq(|prompts|, i requires 0 <= i < |prompts| => InferenceRequest(prompts[i]))
  }

  function Prompts(requests: seq<InferenceRequest>): seq<string> {
    seq(|requests|, i requires 0 <= i < |requests| => requests[i].prompt)
  }

  /** Whether send attempt number k (counted from 0 on a stream) fails. */
  function SendStatus(sendErrors: map<nat, Error>, k: nat): Status {
    if k in sendErrors then Failed(sendErrors[k]) else Ok
  }

  /** The messages of log that reach the peer, when log[0] is send attempt
      number base: the subsequence of the attempts that succeed. */
  function Delivered(log: seq<InferenceResponse>, sendErrors: map<nat, Error>, base: nat): seq<InferenceResponse>
    decreases |log|
  {
    if log == [] then []
    else
      var last := |log| - 1;
      Delivered(log[..last], sendErrors, base)
        + (if SendStatus(sendErrors, base + last).Ok? then [log[last]] else [])
  }

  /** When no attempt fails every message is delivered, in order. */
  lemma {:induction false} DeliveredAll(log: seq<InferenceResponse>, sendErrors: map<nat, Error>, base: nat)
    requires forall k :: base <= k < base + |log| ==> k !in sendErrors
    ensures Delivered(log, sendErrors, base) == log
    decreases |log|
  {
    if log != [] {
      DeliveredAll(log[..|log| - 1], sendErrors, base);
    }
  }

  /** Nothing is delivered that was not attempted, and no message more often. */
  lemma {:induction false} DeliveredWithin(log: seq<InferenceResponse>, sendErrors: map<nat, Error>, base: nat)
    ensures multiset(Delivered(log, sendErrors, base)) <= multiset(log)
    ensures |Delivered(log, sendErrors, base)| <= |log|
    decreases |log|
  {
    if log != [] {
      var last := |log| - 1;
      var front := log[..last];
      DeliveredWithin(front, sendErrors, base);
      var extra := if SendStatus(sendErrors, base + last).Ok? then [log[last]] else [];
      assert Delivered(log, sendErrors, base) == Delivered(front, sendErrors, base) + extra;
      assert log == front + [log[last]];
      assert multiset(log) == multiset(front) + multiset([log[last]]);
    }
  }

  /** Only sent messages are delivered. */
  lemma {:induction false} DeliveredIn(log: seq<InferenceResponse>, sendErrors: map<nat, Error>, base: nat, x: InferenceResponse)
    requires x in Delivered(log, sendErrors, base)
    ensures x in log
    decreases |log|
  {
    var last := |log| - 1;
    var front := log[..last];
    var extra := if SendStatus(sendErrors, base + last).Ok? then [log[last]] else [];
    assert Delivered(log, sendErrors, base) == Delivered(front, sendErrors, base) + extra;
    if x in Delivered(front, sendErrors, base) {
      DeliveredIn(front, sendErrors, base, x);
      var k :| 0 <= k < |front| && front[k] == x;
      assert log[k] == x;
    } else {
      assert x == log[last];
    }
  }

  /** No element occurs twice. */
  predicate Distinct<T(==)>(s: seq<T>) {
    forall i, j :: 0 <= i < j < |s| ==> s[i] != s[j]
  }

  /** A log with no message sent twice delivers no message twice. */
  lemma {:induction false} DeliveredDistinct(log: seq<InferenceResponse>, sendErrors: map<nat, Error>, base: nat)
    requires Distinct(log)
    ensures Distinct(Delivered(log, sendErrors, base))
    decreases |log|
  {
    if log != [] {
      var last := |log| - 1;
      var front := log[..last];
      var d := Delivered(front, sendErrors, base);
      var extra := if SendStatus(sendErrors, base + last).Ok? then [log[last]] else [];
      DeliveredDistinct(front, sendErrors, base);
      assert Delivered(log, sendErrors, base) == d + extra;
      forall i, j | 0 <= i < j < |d + extra|
        ensures (d + extra)[i] != (d + extra)[j]
      {
        if j >= |d| {
          DeliveredIn(front, sendErrors, base, d[i]);
          var k :| 0 <= k < |front| && front[k] == d[i];
          assert log[k] == d[i] && (d + extra)[j] == log[last] && k < last;
          assert (d + extra)[i] == d[i];
        } else {
          assert (d + extra)[i] == d[i] && (d + extra)[j] == d[j];
        }
      }
    }
  }

  /** The server side of one call's stream. inbound is what successive Recv
      calls return; sendErrors says which send attempts fail. attempted is
      every response the handler sent, delivered those that reached the
      client, and sentAfter[k] how many receives the handler had made when
      it sent attempted[k]. */
  class ServerStream {
    const inbound: seq<Item<InferenceRequest>>
    const sendErrors: map<nat, Error>
    var received: nat
    var attempted: seq<InferenceResponse>
    var delivered: seq<InferenceResponse>
    ghost var sentAfter: seq<nat>

    ghost predicate Valid()
      reads this
    {
      delivered == Delivered(attempted, sendErrors, 0) && |sentAfter| == |attempted|
    }

    /** The stream as the transport hands it to a handler: nothing read or
        sent yet. */
    ghost predicate Unused()
      reads this
    {
      received == 0 && attempted == [] && delivered == [] && sentAfter == []
    }

    constructor (inbound: seq<Item<InferenceRequest>>, sendErrors: map<nat, Error>)
      ensures this.inbound == inbound && this.sendErrors == sendErrors
      ensures Unused() && Valid()
    {
      this.inbound := inbound;
      this.sendErrors := sendErrors;
      received := 0;
      attempted := [];
      delivered := [];
      sentAfter := [];
    }

    /** Recv: the next item of the script (io.EOF once it is used up). */
    method Recv() returns (item: Item<InferenceRequest>)
      requires Valid()
      modifies this`received
      ensures Valid()
      ensures item == ItemAt(inbound, old(received))
      ensures received == old(received) + 1
    {
      item := ItemAt(inbound, received);
      received := received + 1;
    }

    /** Send (and SendAndClose, which sends the same way): one more attempt
        on the outbound log, delivered unless this attempt fails. */
    method Send(response: InferenceResponse) returns (status: Status)
      requires Valid()
      modifies this`attempted, this`delivered, this`sentAfter
      ensures Valid()
      ensures status == SendStatus(sendErrors, |old(attempted)|)
      ensures attempted == old(attempted) + [response]
      ensures sentAfter == old(sentAfter) + [received]
      ensures delivered == old(delivered) + (if status.Ok? then [response] else [])
    {
      status := SendStatus(sendErrors, |attempted|);
      var before := attempted;
      attempted := attempted + [response];
      sentAfter := sentAfter + [received];
      assert attempted[..|before|] == before;
      if status.Ok? {
        delivered := delivered + [response];
      }
    }
  }
}
