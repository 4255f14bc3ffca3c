/** What the handshake request says, byte by byte. */
module Requests {
  import opened Bytes
  import opened Wrappers
  import opened Text
  import opened Strings
  import opened Session
  import Http

  /** The header lines of a request in a given order of its map. */
  function Lines(order: seq<text>, headers: Http.Headers): (r: seq<text>)
    requires forall k | k in order :: k in headers
    ensures |r| == |order|
    ensures forall i | 0 <= i < |order| :: r[i] == order[i] + [58, 32] + headers[order[i]] + [13, 10]
  {
    seq(|order|, i requires 0 <= i < |order| => order[i] + [58, 32] + headers[order[i]] + [13, 10])
  }

  lemma {:induction false} BlockIsLines(order: seq<text>, headers: Http.Headers)
    requires forall k | k in order :: k in headers
    ensures Http.HeaderBlock(order, headers) == Flatten(Lines(order, headers))
    decreases |order|
  {
    if order != [] {
      BlockIsLines(order[1..], headers);
      assert Lines(order, headers)[1..] == Lines(order[1..], headers);
    }
  }

  /** Method, path and version with blanks between, one line a header, a blank line; lines end in CR LF. */
  lemma RequestLayout(r: Http.Request, order: seq<text>)
    requires forall k | k in order :: k in r.headers
    ensures Http.RequestBytes(r, order) ==
            r.verb + [32] + r.path + [32] + r.version + [13, 10] + Flatten(Lines(order, r.headers)) + [13, 10]
  {
    BlockIsLines(order, r.headers);
  }

  /** The protocols offered: none, or all of them separated by a comma and a blank. */
  function Offer(acceptable: Option<seq<text>>): Option<text>
    requires acceptable != Some([])
  {
    if acceptable.None? then None else Some(JoinWith(acceptable.value, [44, 32]))
  }

  lemma {:induction false} JoinedOffer(ps: seq<text>)
    requires ps != []
    ensures JoinProtocols(ps) == JoinWith(ps, [44, 32]) + [44, 32]
  {
    if |ps| == 1 {
      assert ps[1..] == [];
    } else {
      JoinedOffer(ps[1..]);
      var rest := JoinWith(ps[1..], [44, 32]);
      assert ps[0] + [44, 32] + (rest + [44, 32]) == ps[0] + [44, 32] + rest + [44, 32];
    }
  }

  /** A server that splits the offer finds the protocols, if none of them contains a comma. */
  lemma OfferRead(ps: seq<text>)
    requires ps != [] && forall p | p in ps :: 44 !in p
    ensures Split(Offer(Some(ps)).value, [44, 32]) == ps
  {
    SplitJoined(ps, [44, 32]);
  }

  /** The names of the headers that a request may have. */
  lemma NamesDiffer()
    ensures |Literal("Upgrade")| == 7 && |Literal("Connection")| == 10 && |Literal("Sec-WebSocket-Key")| == 17
    ensures |Literal("Sec-WebSocket-Version")| == 21 && |Literal("User-agent")| == 10
    ensures |Literal("Sec-WebSocket-Protocol")| == 22
    ensures Literal("Connection") != Literal("User-agent")
  {
    assert Literal("Connection")[0] == 67 && Literal("User-agent")[0] == 85;
  }

  /** A request of this client: GET, the path, HTTP/1.1, five headers, and the protocols if any are offered. */
  predicate RequestFor(r: Http.Request, path: text, key: text, offer: Option<text>) {
    && r.verb == Literal("GET") && r.path == path && r.version == Literal("HTTP/1.1")
    && r.headers.Keys ==
         {Literal("Upgrade"), Literal("Connection"), Literal("Sec-WebSocket-Key"), Literal("Sec-WebSocket-Version"),
          Literal("User-agent")} + (if offer.Some? then {Literal("Sec-WebSocket-Protocol")} else {})
    && r.headers[Literal("Upgrade")] == Literal("websocket")
    && r.headers[Literal("Connection")] == Literal("Upgrade")
    && r.headers[Literal("Sec-WebSocket-Key")] == key
    && r.headers[Literal("Sec-WebSocket-Version")] == Literal("13")
    && r.headers[Literal("User-agent")] == Literal("rust-websocket-std")
    && (offer.Some? ==> r.headers[Literal("Sec-WebSocket-Protocol")] == offer.value)
  }

  lemma RequestContents(path: text, key: text, offer: Option<text>)
    ensures RequestFor(HandshakeRequest(path, key, offer), path, key, offer)
  {
    NamesDiffer();
    assert Literal("GET") == [71, 69, 84];
  }

  /** A client that connects puts that request in front of its queue, with the key it keeps. */
  lemma ConnectRequests(s: State, i: StepInput)
    requires s.status.StartInit? && i.connected && s.acceptable != Some([])
    ensures var t := Connect(s, i).s;
            && t.key == i.key
            && |t.outputEvents| == |s.outputEvents| + 1 && t.outputEvents[1..] == s.outputEvents
            && t.outputEvents[0].HttpRequest?
            && RequestFor(t.outputEvents[0].request, s.path, i.key, Offer(s.acceptable))
  {
    if s.acceptable.Some? {
      JoinedOffer(s.acceptable.value);
      var all := JoinProtocols(s.acceptable.value);
      assert all[..|all| - 2] == JoinWith(s.acceptable.value, [44, 32]);
    }
    RequestContents(s.path, i.key, Offer(s.acceptable));
  }
}
