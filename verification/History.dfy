/**
 The daemon's state in terms of the events that led to it: what its counters count, and where the
 content of a completed request comes from.
 */
module History {
  import opened Wrappers
  import Hooks
  import opened Requests
  import opened Setup
  import opened Daemon
  import Answers

  // ---------------------------------------------------------------- the counters of requests

  /** The chain that a known method and a path lead to. */
  function ChainFor(p: Service, httpMethod: Method, path: string): seq<Hooks.Config> {
    if httpMethod.Other? then []
    else
      match Route(p.site, path)
      case Some(Chained(i)) => if i < |p.site.chains| then p.site.chains[i] else []
      case _ => []
  }

  /** A request that reaches the handler of a chain. */
  predicate Reaches(p: Service, e: Event) {
    e.Connect? && ChainFor(p, e.httpMethod, e.request.path) != []
  }

  /** A request that a chain lets in: a POST to its path, with a token and from a peer that a hook admits. */
  ghost predicate LetsIn(chain: seq<Hooks.Config>, request: Hooks.Request) {
    && chain != [] && request.peer.Some? && request.post && request.path == chain[0].uriPath
    && request.token != "" && Answers.Admitted(chain, request.token, request.peer.value)
  }

  /** A request that reaches a chain, and that the chain refuses. */
  ghost predicate Refused(p: Service, e: Event) {
    Reaches(p, e) && !LetsIn(ChainFor(p, e.httpMethod, e.request.path), e.request)
  }

  /** The events that the status page is about: a request that reaches a chain, or is refused by it, or ends. */
  datatype Kind = Reached | Rejected | Ended | Cut

  ghost predicate Is(p: Service, e: Event, kind: Kind) {
    match kind
    case Reached => Reaches(p, e)
    case Rejected => Refused(p, e)
    case Ended => e.Finish?
    case Cut => e.Close?
  }

  ghost function Count(p: Service, events: seq<Event>, kind: Kind): nat {
    if events == [] then 0 else (if Is(p, events[0], kind) then 1 else 0) + Count(p, events[1..], kind)
  }

  lemma LetsInIff(chain: seq<Hooks.Config>, request: Hooks.Request)
    requires chain != []
    ensures Hooks.Decide(chain, request) == Hooks.Accept <==> LetsIn(chain, request)
  {
    Answers.DecisionIff(chain, request);
  }

  /** What one event does to the counters and to the number of open connections. */
  lemma StepCounts(p: Service, s: State, e: Event)
    requires Enabled(s, e) && Step(p, s, e).Ok?
    ensures var t := Step(p, s, e).value;
      && t.requests == s.requests + (if Reaches(p, e) then 1 else 0)
      && t.goodRequests == s.goodRequests + (if e.Finish? then 1 else 0)
      && |t.connections| + (if e.Finish? || e.Close? then 1 else 0) ==
         |s.connections| + (if Reaches(p, e) && !Refused(p, e) then 1 else 0)
  {
    match e
    case Connect(c, m, request) => ConnectCounts(p, s, c, m, request);
    case Receive(c, chunk) => ReceiveCounts(s, c, chunk);
    case Finish(c) => FinishCounts(p, s, c);
    case Close(c) => OneClosed(s.connections, c);
    case Act(_) =>
  }

  lemma ConnectCounts(p: Service, s: State, c: nat, httpMethod: Method, request: Hooks.Request)
    requires c !in s.connections
    ensures var t, e := OnConnect(p, s, c, httpMethod, request), Connect(c, httpMethod, request);
      && t.requests == s.requests + (if Reaches(p, e) then 1 else 0) && t.goodRequests == s.goodRequests
      && |t.connections| == |s.connections| + (if Reaches(p, e) && !Refused(p, e) then 1 else 0)
  {
    var chain := ChainFor(p, httpMethod, request.path);
    if chain != [] {
      LetsInIff(chain, request);
    }
  }

  lemma ReceiveCounts(s: State, c: nat, chunk: string)
    requires c in s.connections && OnReceive(s, c, chunk).Ok?
    ensures var t := OnReceive(s, c, chunk).value;
      t.requests == s.requests && t.goodRequests == s.goodRequests && |t.connections| == |s.connections|
  {
    assert OnReceive(s, c, chunk).value.connections.Keys == s.connections.Keys;
  }

  lemma FinishCounts(p: Service, s: State, c: nat)
    requires c in s.connections && OnFinish(p, s, c).Ok?
    ensures var t := OnFinish(p, s, c).value;
      t.requests == s.requests && t.goodRequests == s.goodRequests + 1 && |t.connections| == |s.connections| - 1
  {
    OneClosed(s.connections, c);
  }

  lemma {:induction false} RunCounts(p: Service, s: State, events: seq<Event>)
    requires Legal(p, s, events) && Run(p, s, events).Ok?
    ensures var t := Run(p, s, events).value;
      && t.requests == s.requests + Count(p, events, Reached)
      && t.goodRequests == s.goodRequests + Count(p, events, Ended)
      && |t.connections| + Count(p, events, Ended) + Count(p, events, Cut) + Count(p, events, Rejected) ==
         |s.connections| + Count(p, events, Reached)
    decreases |events|
  {
    if events == [] {
    } else {
      StepCounts(p, s, events[0]);
      RunCounts(p, Step(p, s, events[0]).value, events[1..]);
    }
  }

  /**
   The numbers of requests on the status page. Every request that reaches the handler of a chain is
   counted, refused or not; the good ones are those whose body came to its end; and the difference,
   which the page calls rejected, are those refused, those closed before the end, and those still open.
   */
  lemma RequestsCounted(p: Service, now: real, events: seq<Event>)
    requires Legal(p, Start(now), events) && Run(p, Start(now), events).Ok?
    ensures var t := Run(p, Start(now), events).value;
      && t.requests == Count(p, events, Reached)
      && t.goodRequests == Count(p, events, Ended)
      && t.requests - t.goodRequests == Count(p, events, Rejected) + Count(p, events, Cut) + |t.connections|
  {
    RunCounts(p, Start(now), events);
  }

  // ---------------------------------------------------------------- the content of requests

  /** What the events have sent on connection c since its last request began; start was sent before. */
  function Sent(start: string, events: seq<Event>, c: nat): string
    decreases |events|
  {
    if events == [] then start
    else
      match events[0]
      case Connect(d, _, _) => Sent(if d == c then "" else start, events[1..], c)
      case Receive(d, chunk) => Sent(if d == c then start + chunk else start, events[1..], c)
      case _ => Sent(start, events[1..], c)
  }

  /** The last request that began on connection c. */
  function Asked(start: Option<Hooks.Request>, events: seq<Event>, c: nat): Option<Hooks.Request>
    decreases |events|
  {
    if events == [] then start
    else
      match events[0]
      case Connect(d, _, request) => Asked(if d == c then Some(request) else start, events[1..], c)
      case _ => Asked(start, events[1..], c)
  }

  function SentBefore(s: State, c: nat): string {
    if c in s.connections then Concat(s.connections[c].received) else ""
  }

  function AskedBefore(s: State, c: nat): Option<Hooks.Request> {
    if c in s.connections then Some(s.connections[c].request) else None
  }

  /** If c is open after one event, what was sent on it and asked for is what that event makes of it. */
  lemma StepSends(p: Service, s: State, e: Event, c: nat)
    requires Enabled(s, e) && Step(p, s, e).Ok? && c in Step(p, s, e).value.connections
    ensures SentBefore(Step(p, s, e).value, c) == Sent(SentBefore(s, c), [e], c)
    ensures AskedBefore(Step(p, s, e).value, c) == Asked(AskedBefore(s, c), [e], c)
  {
    assert [e][1..] == [];
    match e
    case Connect(d, m, request) => ConnectSends(p, s, d, m, request, c);
    case Receive(d, chunk) => ReceiveSends(s, d, chunk, c);
    case Finish(d) => assert OnFinish(p, s, d).value.connections == s.connections - {d};
    case Close(_) =>
    case Act(_) =>
  }

  lemma ConnectSends(p: Service, s: State, d: nat, httpMethod: Method, request: Hooks.Request, c: nat)
    requires d !in s.connections && c in OnConnect(p, s, d, httpMethod, request).connections
    ensures var t := OnConnect(p, s, d, httpMethod, request);
      if c == d then t.connections[c].received == [] && t.connections[c].request == request
      else c in s.connections && t.connections[c] == s.connections[c]
  {
  }

  lemma ReceiveSends(s: State, d: nat, chunk: string, c: nat)
    requires d in s.connections && OnReceive(s, d, chunk).Ok? && c in OnReceive(s, d, chunk).value.connections
    ensures var t := OnReceive(s, d, chunk).value;
      && c in s.connections && t.connections[c].request == s.connections[c].request
      && Concat(t.connections[c].received) == if c == d then Concat(s.connections[c].received) + chunk else Concat(s.connections[c].received)
  {
    var received := s.connections[d].received;
    assert (received + [chunk])[..|received|] == received;
  }

  /** A connection that is not open is opened by its own Connect, which begins anew. */
  lemma {:induction false} RunSends(p: Service, s: State, events: seq<Event>, c: nat)
    requires Legal(p, s, events) && Run(p, s, events).Ok? && c in Run(p, s, events).value.connections
    ensures SentBefore(Run(p, s, events).value, c) == Sent(SentBefore(s, c), events, c)
    ensures AskedBefore(Run(p, s, events).value, c) == Asked(AskedBefore(s, c), events, c)
    decreases |events|
  {
    if events == [] {
    } else {
      var t := Step(p, s, events[0]).value;
      RunSends(p, t, events[1..], c);
      if c in t.connections {
        StepSends(p, s, events[0], c);
        SentFirst(SentBefore(s, c), AskedBefore(s, c), events, c);
      } else {
        ReopenedLater(p, t, events[1..], c);
        SentAnew("", Sent(SentBefore(s, c), [events[0]], c), None, Asked(AskedBefore(s, c), [events[0]], c), events[1..], c);
        SentFirst(SentBefore(s, c), AskedBefore(s, c), events, c);
      }
    }
  }

  lemma SentFirst(start: string, asked: Option<Hooks.Request>, events: seq<Event>, c: nat)
    requires events != []
    ensures Sent(start, events, c) == Sent(Sent(start, [events[0]], c), events[1..], c)
    ensures Asked(asked, events, c) == Asked(Asked(asked, [events[0]], c), events[1..], c)
  {
    assert [events[0]][1..] == [];
  }

  predicate Opens(events: seq<Event>, c: nat) {
    exists i :: 0 <= i < |events| && events[i].Connect? && events[i].c == c
  }

  /** A connection that is open in the end and not in the beginning was opened in between. */
  lemma {:induction false} ReopenedLater(p: Service, s: State, events: seq<Event>, c: nat)
    requires Legal(p, s, events) && Run(p, s, events).Ok? && c in Run(p, s, events).value.connections && c !in s.connections
    ensures Opens(events, c)
    decreases |events|
  {
    if events == [] {
    } else {
      var t := Step(p, s, events[0]).value;
      if events[0].Connect? && events[0].c == c {
        assert Opens(events, c);
      } else {
        OnlyConnectOpens(p, s, events[0], c);
        ReopenedLater(p, t, events[1..], c);
        var i :| 0 <= i < |events[1..]| && events[1..][i].Connect? && events[1..][i].c == c;
        assert events[i + 1].Connect? && events[i + 1].c == c;
      }
    }
  }

  lemma OnlyConnectOpens(p: Service, s: State, e: Event, c: nat)
    requires Enabled(s, e) && Step(p, s, e).Ok? && c !in s.connections && !(e.Connect? && e.c == c)
    ensures c !in Step(p, s, e).value.connections
  {
    match e
    case Connect(d, m, request) =>
      assert forall x :: x in OnConnect(p, s, d, m, request).connections ==> x == d || x in s.connections;
    case Receive(d, chunk) => assert OnReceive(s, d, chunk).value.connections.Keys == s.connections.Keys;
    case Finish(d) => assert OnFinish(p, s, d).value.connections == s.connections - {d};
    case _ =>
  }

  /** Where a request begins anew, it does not matter what was sent before. */
  lemma {:induction false} SentAnew(a: string, b: string, q: Option<Hooks.Request>, r: Option<Hooks.Request>, events: seq<Event>, c: nat)
    requires Opens(events, c)
    ensures Sent(a, events, c) == Sent(b, events, c) && Asked(q, events, c) == Asked(r, events, c)
    decreases |events|
  {
    if events[0].Connect? && events[0].c == c {
    } else {
      var i :| 0 <= i < |events| && events[i].Connect? && events[i].c == c;
      assert events[1..][i - 1] == events[i];
      match events[0]
      case Receive(d, chunk) =>
        SentAnew(if d == c then a + chunk else a, if d == c then b + chunk else b, q, r, events[1..], c);
      case _ => SentAnew(a, b, q, r, events[1..], c);
    }
  }

  /**
   From the network to the handler: when the body of a request is complete, what its handler gets is
   the request that began last on that connection, and all that was sent since, in order.
   */
  lemma CompletedAsSent(p: Service, now: real, events: seq<Event>, c: nat)
    requires Legal(p, Start(now), events) && Run(p, Start(now), events).Ok?
    requires c in Run(p, Start(now), events).value.connections
    requires OnFinish(p, Run(p, Start(now), events).value, c).Ok?
    ensures var t := Run(p, Start(now), events).value;
      && |OnFinish(p, t, c).value.completed| == |t.completed| + 1
      && var last := OnFinish(p, t, c).value.completed[|t.completed|];
         && last.content == Sent("", events, c) && Some(last.request) == Asked(None, events, c)
         && LetsIn(last.chain, last.request)
  {
    var t := Run(p, Start(now), events).value;
    InitInv(p, now);
    DaemonRunKeeps(p, Start(now), events);
    RunSends(p, Start(now), events, c);
    FinishResult(p, t, c);
    LetsInIff(t.connections[c].chain, t.connections[c].request);
  }
}
