/** The order of the connection matchers that server/server.go registers on
    its cmux multiplexer: HTTP1Fast first, Any second. Whether a connection's
    first bytes look like HTTP/1 is decided inside the cmux library and is a
    parameter here. */
module Mux {
  import opened Wire

  datatype Matcher = HTTP1Fast | Any

  /** The two sub-listeners: the one served by the health-check HTTP server
      and the one served by the gRPC server. */
  datatype Listener = HttpListener | GrpcListener

  /** The matchers in registration order, each with the listener it feeds. */
  const Rules: seq<(Matcher, Listener)> := [(HTTP1Fast, HttpListener), (Any, GrpcListener)]

  predicate Accepts(m: Matcher, looksLikeHttp1: bool) {
    match m
    case HTTP1Fast => looksLikeHttp1
    case Any => true
  }

  /** The listener of the first rule whose matcher accepts the connection. */
  function FirstMatch(rules: seq<(Matcher, Listener)>, looksLikeHttp1: bool): Option<Listener>
    decreases |rules|
  {
    if rules == [] then None
    else if Accepts(rules[0].0, looksLikeHttp1) then Some(rules[0].1)
    else FirstMatch(rules[1..], looksLikeHttp1)
  }

  /** A rule list that ends with the catch-all matcher routes every connection. */
  lemma {:induction false} CatchAllLastIsTotal(rules: seq<(Matcher, Listener)>, looksLikeHttp1: bool)
    requires rules != [] && rules[|rules| - 1].0 == Any
    ensures FirstMatch(rules, looksLikeHttp1).Some?
    decreases |rules|
  {
    if !Accepts(rules[0].0, looksLikeHttp1) {
      CatchAllLastIsTotal(rules[1..], looksLikeHttp1);
    }
  }

  /** With the registered order, an HTTP/1 connection goes to the HTTP server
      and every other connection to the gRPC server. */
  lemma RoutingOrder(looksLikeHttp1: bool)
    ensures FirstMatch(Rules, looksLikeHttp1) == Some(if looksLikeHttp1 then HttpListener else GrpcListener)
  {
    if !looksLikeHttp1 {
      assert Rules[1..] == [(Any, GrpcListener)];
    }
  }
}
