/**
 The whole program: concurrent HTTP connections whose requests are routed, authorised, received in
 chunks and handled, and the action list that executes what they schedule. Every callback is atomic,
 and callbacks of all connections and of the action list may come in any order.
 */
module Daemon {
  import opened Wrappers
  import Scheduler
  import opened SchedulerRuns
  import Hooks
  import opened Requests
  import opened Setup

  /** What is fixed once the program has started. parse is the JSON library. */
  datatype Service = Service(site: Site, limit: nat, parse: string -> Option<Hooks.Payload>)

  /** An accepted request, with the chain that accepted it. received and arrival, its number, are history. */
  datatype Connection = Connection(
    message: Message, chain: seq<Hooks.Config>, request: Hooks.Request, received: seq<string>, arrival: nat)

  /** A request whose body was complete and whose handler has run: history. */
  datatype Completion = Completion(chain: seq<Hooks.Config>, request: Hooks.Request, content: string, arrival: nat)

  datatype State = State(
    connections: map<nat, Connection>,
    actions: Scheduler.State,
    requests: nat,
    goodRequests: nat,
    scheduled: nat,
    completed: seq<Completion>)

  datatype Event =
    | Connect(c: nat, httpMethod: Method, request: Hooks.Request)
    | Receive(c: nat, chunk: string)
    | Finish(c: nat)
    | Close(c: nat)
    | Act(event: Scheduler.Event)

  /** Why the program stops: an assert in the HTTP server, or a fault of the action list. */
  datatype Stop = BodyAssert(abort: Abort) | ActionFault(fault: Scheduler.Fault)

  type Outcome = Result<State, Stop>

  function Start(now: real): State {
    State(map[], Scheduler.Init(now), 0, 0, 0, [])
  }

  function WalkOf(p: Service, chain: seq<Hooks.Config>, request: Hooks.Request, content: string): Hooks.Walk {
    Hooks.HandleBody(chain, request.token, if request.peer.Some? then request.peer.value else "", request.event, p.parse(content))
  }

  /** newRequest. Only a request that a chain of hooks accepts is still open afterwards. */
  function OnConnect(p: Service, s: State, c: nat, httpMethod: Method, request: Hooks.Request): State {
    if httpMethod.Other? then s
    else
      match Route(p.site, request.path)
      case None => s
      case Some(StatusPage) => s
      case Some(Chained(i)) =>
        if i >= |p.site.chains| || p.site.chains[i] == [] then s
        else
          var counted := s.(requests := s.requests + 1);
          if Hooks.Decide(p.site.chains[i], request) != Hooks.Accept then counted
          else counted.(connections := s.connections[c :=
                 Connection(Accept(NewMessage(p.limit)), p.site.chains[i], request, [], s.requests)])
  }

  function OnReceive(s: State, c: nat, chunk: string): Outcome
    requires c in s.connections
  {
    var conn := s.connections[c];
    match AddContent(conn.message, chunk)
    case Err(a) => Err(BodyAssert(a))
    case Ok(m) => Ok(s.(connections := s.connections[c := conn.(message := m, received := conn.received + [chunk])]))
  }

  /** completeRequest with the handler of hook::operator(). The answered request is closed. */
  function OnFinish(p: Service, s: State, c: nat): Outcome
    requires c in s.connections
  {
    var conn := s.connections[c];
    match Complete(conn.message, content => Some(Hooks.ResponseTo(WalkOf(p, conn.chain, conn.request, content))))
    case Err(a) => Err(BodyAssert(a))
    case Ok(m) =>
      var jobs := WalkOf(p, conn.chain, conn.request, m.content).jobs;
      Ok(s.(connections := s.connections - {c},
            actions := Scheduler.AppendAll(s.actions, jobs),
            goodRequests := s.goodRequests + 1,
            scheduled := s.scheduled + |jobs|,
            completed := s.completed + [Completion(conn.chain, conn.request, m.content, conn.arrival)]))
  }

  ghost predicate Enabled(s: State, e: Event) {
    match e
    case Connect(c, m, request) => c !in s.connections && request.post == m.Post?
    case Receive(c, chunk) => c in s.connections && chunk != ""
    case Finish(c) => c in s.connections
    case Close(c) => c in s.connections
    case Act(event) => !event.AppendEvent? && Scheduler.Enabled(s.actions, event)
  }

  ghost function Step(p: Service, s: State, e: Event): Outcome
    requires Enabled(s, e)
  {
    match e
    case Connect(c, m, request) => Ok(OnConnect(p, s, c, m, request))
    case Receive(c, chunk) => OnReceive(s, c, chunk)
    case Finish(c) => OnFinish(p, s, c)
    case Close(c) => Ok(s.(connections := s.connections - {c}))
    case Act(event) =>
      match Scheduler.Step(s.actions, event)
      case Err(f) => Err(ActionFault(f))
      case Ok(actions) => Ok(s.(actions := actions))
  }

  ghost predicate Legal(p: Service, s: State, events: seq<Event>)
    decreases |events|
  {
    events == [] ||
    (Enabled(s, events[0]) &&
     (Step(p, s, events[0]).Ok? ==> Legal(p, Step(p, s, events[0]).value, events[1..])))
  }

  ghost function Run(p: Service, s: State, events: seq<Event>): Outcome
    requires Legal(p, s, events)
    decreases |events|
  {
    if events == [] then Ok(s)
    else
      var s1 :- Step(p, s, events[0]);
      Run(p, s1, events[1..])
  }

  // ---------------------------------------------------------------- invariant

  /** The jobs that the completed requests schedule: request by request, hook by hook. */
  function JobsOf(p: Service, completed: seq<Completion>): seq<Scheduler.Job> {
    if completed == [] then []
    else
      var last := completed[|completed| - 1];
      JobsOf(p, completed[..|completed| - 1]) + WalkOf(p, last.chain, last.request, last.content).jobs
  }

  /** A chain of the site that has authorised the request before its body was read. */
  ghost predicate Authorised(p: Service, chain: seq<Hooks.Config>, request: Hooks.Request) {
    chain in p.site.chains && chain != [] && Hooks.Decide(chain, request) == Hooks.Accept
  }

  ghost predicate Open(p: Service, conn: Connection) {
    Authorised(p, conn.chain, conn.request) &&
    AddAll(Accept(NewMessage(p.limit)), conn.received) == Ok(conn.message)
  }

  /** The action list holds exactly what the completed requests have scheduled. */
  ghost predicate ActionsInv(p: Service, actions: Scheduler.State, completed: seq<Completion>) {
    Reachable(actions) && actions.appended == JobsOf(p, completed)
  }

  ghost predicate ConnectionsInv(p: Service, connections: map<nat, Connection>) {
    forall c :: c in connections ==> Open(p, connections[c])
  }

  ghost predicate CompletedInv(p: Service, completed: seq<Completion>) {
    forall k :: 0 <= k < |completed| ==>
      Authorised(p, completed[k].chain, completed[k].request) && |completed[k].content| <= p.limit
  }

  ghost predicate CountersInv(s: State) {
    && s.scheduled == |s.actions.appended|
    && s.goodRequests == |s.completed|
    && s.goodRequests + |s.connections| <= s.requests
  }

  ghost predicate DaemonInv(p: Service, s: State) {
    && ActionsInv(p, s.actions, s.completed) && ConnectionsInv(p, s.connections)
    && CompletedInv(p, s.completed) && CountersInv(s)
  }

  ghost predicate Fine(p: Service, o: Outcome) {
    match o
    case Ok(t) => DaemonInv(p, t)
    case Err(_) => false
  }

  /** The body received so far is longer than the limit. */
  ghost predicate Overlong(p: Service, conn: Connection) {
    |Concat(conn.received)| > p.limit
  }

  /** The events that end the program: more data for an overlong body, or its end. */
  ghost predicate Fatal(p: Service, s: State, e: Event)
    requires Enabled(s, e)
  {
    match e
    case Receive(c, chunk) =>
      Overlong(p, s.connections[c]) && |s.connections[c].message.content| + |chunk| > p.limit
    case Finish(c) => Overlong(p, s.connections[c])
    case _ => false
  }

  lemma {:induction false} AppendAllReachable(a: Scheduler.State, jobs: seq<Scheduler.Job>)
    requires Reachable(a)
    ensures Reachable(Scheduler.AppendAll(a, jobs))
    ensures Scheduler.AppendAll(a, jobs).appended == a.appended + jobs
  {
    if jobs == [] {
    } else {
      var n := |jobs| - 1;
      AppendAllReachable(a, jobs[..n]);
      ReachableStep(Scheduler.AppendAll(a, jobs[..n]), Scheduler.AppendEvent(jobs[n]));
      assert jobs[..n] + [jobs[n]] == jobs;
    }
  }

  lemma InitInv(p: Service, now: real)
    ensures DaemonInv(p, Start(now))
  {
    ReachableInit(now);
  }

  lemma ConnectKeeps(p: Service, s: State, c: nat, httpMethod: Method, request: Hooks.Request)
    requires DaemonInv(p, s) && c !in s.connections
    ensures Fine(p, Ok(OnConnect(p, s, c, httpMethod, request)))
  {
    var t := OnConnect(p, s, c, httpMethod, request);
    ConnectOpens(p, s, c, httpMethod, request);
    assert ConnectionsInv(p, t.connections);
  }

  /** Connecting leaves the connections as they are, or opens one and counts it. */
  lemma ConnectOpens(p: Service, s: State, c: nat, httpMethod: Method, request: Hooks.Request)
    requires c !in s.connections
    ensures var t := OnConnect(p, s, c, httpMethod, request);
      && t.actions == s.actions && t.goodRequests == s.goodRequests
      && t.scheduled == s.scheduled && t.completed == s.completed
      && if t.connections == s.connections then t.requests >= s.requests
         else t.requests == s.requests + 1 && |t.connections| == |s.connections| + 1
              && exists conn :: Open(p, conn) && t.connections == s.connections[c := conn]
  {
    assert AddAll(Accept(NewMessage(p.limit)), []) == Ok(Accept(NewMessage(p.limit)));
    var t := OnConnect(p, s, c, httpMethod, request);
    if c in t.connections {
      assert Open(p, t.connections[c]);
    }
  }

  lemma OpenReceives(p: Service, conn: Connection, chunk: string)
    requires Open(p, conn)
    ensures |conn.message.content| <= p.limit && conn.message.limit == p.limit
    ensures conn.message.stage == (if Overlong(p, conn) then Responded else Accepted)
    ensures conn.message.response == (if Overlong(p, conn) then Some(TOO_LARGE) else None)
    ensures !Overlong(p, conn) ==> conn.message.content == Concat(conn.received)
    ensures AddAll(Accept(NewMessage(p.limit)), conn.received + [chunk]) == AddContent(conn.message, chunk)
  {
    AddAllResult(p.limit, conn.received);
    assert (conn.received + [chunk])[..|conn.received|] == conn.received;
  }

  lemma ReceiveKeeps(p: Service, s: State, c: nat, chunk: string)
    requires DaemonInv(p, s) && Enabled(s, Receive(c, chunk))
    ensures if Fatal(p, s, Receive(c, chunk)) then OnReceive(s, c, chunk) == Err(BodyAssert(ResponseSetTwice))
            else Fine(p, OnReceive(s, c, chunk))
  {
    var conn := s.connections[c];
    OpenReceives(p, conn, chunk);
    if AddContent(conn.message, chunk).Ok? {
      var t := OnReceive(s, c, chunk).value;
      assert t.connections.Keys == s.connections.Keys;
      assert |t.connections| == |s.connections|;
      assert ConnectionsInv(p, t.connections);
    }
  }

  lemma OneClosed(connections: map<nat, Connection>, c: nat)
    requires c in connections
    ensures |connections - {c}| == |connections| - 1
  {
    assert (connections - {c}).Keys == connections.Keys - {c};
  }

  /** The jobs of one more completed request are appended. */
  lemma CompleteOneMore(p: Service, a: Scheduler.State, completed: seq<Completion>, last: Completion)
    requires ActionsInv(p, a, completed)
    ensures var jobs := WalkOf(p, last.chain, last.request, last.content).jobs;
      && ActionsInv(p, Scheduler.AppendAll(a, jobs), completed + [last])
      && |Scheduler.AppendAll(a, jobs).appended| == |a.appended| + |jobs|
  {
    AppendAllReachable(a, WalkOf(p, last.chain, last.request, last.content).jobs);
    assert (completed + [last])[..|completed|] == completed;
  }

  /** What finishing a connection comes to if its body is within the limit. */
  function Finished(p: Service, s: State, c: nat): State
    requires c in s.connections
  {
    var conn := s.connections[c];
    var content := Concat(conn.received);
    var jobs := WalkOf(p, conn.chain, conn.request, content).jobs;
    State(s.connections - {c}, Scheduler.AppendAll(s.actions, jobs), s.requests, s.goodRequests + 1,
          s.scheduled + |jobs|, s.completed + [Completion(conn.chain, conn.request, content, conn.arrival)])
  }

  lemma FinishResult(p: Service, s: State, c: nat)
    requires c in s.connections && Open(p, s.connections[c])
    ensures OnFinish(p, s, c) ==
            if Overlong(p, s.connections[c]) then Err(BodyAssert(NotAccepted)) else Ok(Finished(p, s, c))
  {
    OpenReceives(p, s.connections[c], "");
  }

  lemma FinishedInv(p: Service, s: State, c: nat)
    requires DaemonInv(p, s) && c in s.connections && !Overlong(p, s.connections[c])
    ensures DaemonInv(p, Finished(p, s, c))
  {
    var conn := s.connections[c];
    CompleteOneMore(p, s.actions, s.completed, Completion(conn.chain, conn.request, Concat(conn.received), conn.arrival));
    OneClosed(s.connections, c);
  }

  lemma FinishKeeps(p: Service, s: State, c: nat)
    requires DaemonInv(p, s) && Enabled(s, Finish(c))
    ensures if Fatal(p, s, Finish(c)) then OnFinish(p, s, c) == Err(BodyAssert(NotAccepted))
            else Fine(p, OnFinish(p, s, c))
  {
    FinishResult(p, s, c);
    if !Overlong(p, s.connections[c]) {
      FinishedInv(p, s, c);
    }
  }

  lemma CloseKeeps(p: Service, s: State, c: nat)
    requires DaemonInv(p, s) && Enabled(s, Close(c))
    ensures Fine(p, Step(p, s, Close(c)))
  {
    OneClosed(s.connections, c);
  }

  lemma ActKeeps(p: Service, s: State, event: Scheduler.Event)
    requires DaemonInv(p, s) && Enabled(s, Act(event))
    ensures Fine(p, Step(p, s, Act(event)))
  {
    ReachableStep(s.actions, event);
    AppendedStays(s.actions, event);
  }

  /** Only appending changes what was appended. */
  lemma AppendedStays(a: Scheduler.State, event: Scheduler.Event)
    requires Reachable(a) && Scheduler.Enabled(a, event) && !event.AppendEvent?
    ensures Scheduler.Step(a, event).Ok? ==> Scheduler.Step(a, event).value.appended == a.appended
  {
    if event.SigchldEvent? {
      ReachableReaped(a);
    }
  }

  /**
   The program never stops but for an overlong body: an enabled event stops it if and only if it
   delivers more data of a body that is over the limit and still does not fit, or its end. Then it is
   the assert of the request that fails, never one of the action list.
   */
  lemma StopsIff(p: Service, s: State, e: Event)
    requires DaemonInv(p, s) && Enabled(s, e)
    ensures Step(p, s, e).Err? <==> Fatal(p, s, e)
    ensures Step(p, s, e).Err? ==> Step(p, s, e).error.BodyAssert?
    ensures Step(p, s, e).Ok? ==> DaemonInv(p, Step(p, s, e).value)
  {
    match e
    case Connect(c, m, request) => ConnectKeeps(p, s, c, m, request);
    case Receive(c, chunk) => ReceiveKeeps(p, s, c, chunk);
    case Finish(c) => FinishKeeps(p, s, c);
    case Close(c) => CloseKeeps(p, s, c);
    case Act(event) => ActKeeps(p, s, event);
  }

  // ---------------------------------------------------------------- whole runs

  lemma {:induction false} DaemonRunKeeps(p: Service, s: State, events: seq<Event>)
    requires DaemonInv(p, s) && Legal(p, s, events)
    ensures Run(p, s, events).Err? ==> Run(p, s, events).error.BodyAssert?
    ensures Run(p, s, events).Ok? ==> DaemonInv(p, Run(p, s, events).value)
    decreases |events|
  {
    if events == [] {
    } else {
      StopsIff(p, s, events[0]);
      if Step(p, s, events[0]).Ok? {
        DaemonRunKeeps(p, Step(p, s, events[0]).value, events[1..]);
      }
    }
  }

  /**
   Commands are not executed concurrently. At any moment the jobs started so far, followed by those
   that wait, are the jobs of the completed requests in the order in which their bodies were complete;
   and each of these requests was authorised by the chain that handled it.
   */
  lemma EndToEndOrder(p: Service, now: real, events: seq<Event>)
    requires Legal(p, Start(now), events) && Run(p, Start(now), events).Ok?
    ensures var t := Run(p, Start(now), events).value;
      && StartedJobs(t.actions.log) + WaitingJobs(t.actions) == JobsOf(p, t.completed)
      && OneAtATime(t.actions.log)
      && (forall k :: 0 <= k < |t.completed| ==> Authorised(p, t.completed[k].chain, t.completed[k].request))
  {
    InitInv(p, now);
    DaemonRunKeeps(p, Start(now), events);
    var a := Run(p, Start(now), events).value.actions;
    ReachableInv(a);
    StartedThenWaiting(a);
    SerialIsOneAtATime(a.log, a.appended);
  }

  /** A path has a chain of all its hooks, in the order of the configuration. */
  lemma ConfiguredChain(p: Service, configs: seq<Hooks.Config>, chain: seq<Hooks.Config>, request: Hooks.Request)
    requires SetUp(configs) == Ok(p.site) && Authorised(p, chain, request)
    ensures chain == OfPath(configs, request.path)
  {
    SetUpGroups(configs);
    var i :| 0 <= i < |p.site.chains| && p.site.chains[i] == chain;
    assert chain == OfPath(configs, p.site.chains[i][0].uriPath);
  }

  /** The jobs that the configured hooks make of the completed requests. */
  function ConfiguredJobs(p: Service, configs: seq<Hooks.Config>, completed: seq<Completion>): seq<Scheduler.Job> {
    if completed == [] then []
    else
      var n := |completed| - 1;
      var last := completed[n];
      ConfiguredJobs(p, configs, completed[..n]) +
      WalkOf(p, OfPath(configs, last.request.path), last.request, last.content).jobs
  }

  lemma {:induction false} JobsAreConfigured(p: Service, configs: seq<Hooks.Config>, completed: seq<Completion>)
    requires SetUp(configs) == Ok(p.site) && CompletedInv(p, completed)
    ensures JobsOf(p, completed) == ConfiguredJobs(p, configs, completed)
  {
    if completed == [] {
    } else {
      var n := |completed| - 1;
      ConfiguredChain(p, configs, completed[n].chain, completed[n].request);
      JobsAreConfigured(p, configs, completed[..n]);
    }
  }

  /**
   The same for a program that was set up from a configuration: what is started and what waits are
   the jobs of the hooks configured for the paths of the completed requests, the requests in the order
   of completion, and the hooks of each in the order of the configuration.
   */
  lemma ConfigurationOrder(p: Service, configs: seq<Hooks.Config>, now: real, events: seq<Event>)
    requires SetUp(configs) == Ok(p.site)
    requires Legal(p, Start(now), events) && Run(p, Start(now), events).Ok?
    ensures var t := Run(p, Start(now), events).value;
      && StartedJobs(t.actions.log) + WaitingJobs(t.actions) == ConfiguredJobs(p, configs, t.completed)
      && (forall k :: 0 <= k < |t.completed| ==> t.completed[k].chain == OfPath(configs, t.completed[k].request.path))
  {
    EndToEndOrder(p, now, events);
    InitInv(p, now);
    DaemonRunKeeps(p, Start(now), events);
    var t := Run(p, Start(now), events).value;
    JobsAreConfigured(p, configs, t.completed);
    forall k | 0 <= k < |t.completed| ensures t.completed[k].chain == OfPath(configs, t.completed[k].request.path) {
      ConfiguredChain(p, configs, t.completed[k].chain, t.completed[k].request);
    }
  }

  /**
   The request has asked for the job: a hook of the chain that received it admits its token and its
   peer, and makes that job of its event and its body.
   */
  ghost predicate AsksFor(p: Service, request: Completion, job: Scheduler.Job) {
    var r := request.request;
    r.peer.Some? && p.parse(request.content).Some? &&
    exists h :: h in request.chain && Hooks.Eligible(h, r.token, r.peer.value) &&
                Hooks.Process(h, r.event, p.parse(request.content).value) == Ok(Some(job))
  }

  lemma WalkIsAskedFor(p: Service, request: Completion, job: Scheduler.Job)
    requires request.request.peer.Some?
    requires job in WalkOf(p, request.chain, request.request, request.content).jobs
    ensures AsksFor(p, request, job)
  {
    var r := request.request;
    var payload := p.parse(request.content).value;
    var at := Hooks.WalkInOrder(request.chain, r.token, r.peer.value, r.event, payload);
    var jobs := WalkOf(p, request.chain, r, request.content).jobs;
    var i :| 0 <= i < |jobs| && jobs[i] == job;
    assert at[i] in at;
    assert request.chain[at[i]] in request.chain;
  }

  lemma {:induction false} JobsAreAskedFor(p: Service, completed: seq<Completion>, job: Scheduler.Job) returns (k: nat)
    requires CompletedInv(p, completed) && job in JobsOf(p, completed)
    ensures k < |completed| && AsksFor(p, completed[k], job)
  {
    var n := |completed| - 1;
    var last := completed[n];
    if job in WalkOf(p, last.chain, last.request, last.content).jobs {
      k := n;
      WalkIsAskedFor(p, last, job);
    } else {
      k := JobsAreAskedFor(p, completed[..n], job);
    }
  }

  /**
   Nothing is executed that nobody asked for: every action that was ever started is the job of a hook
   whose token and address match a request, made from that request's whole body, and in a program that
   was set up from a configuration, the hook is configured for the very path of the request.
   */
  lemma StartedWasAskedFor(p: Service, configs: seq<Hooks.Config>, now: real, events: seq<Event>, job: Scheduler.Job)
    returns (k: nat)
    requires Legal(p, Start(now), events) && Run(p, Start(now), events).Ok?
    requires job in StartedJobs(Run(p, Start(now), events).value.actions.log)
    ensures var t := Run(p, Start(now), events).value;
      && k < |t.completed| && AsksFor(p, t.completed[k], job)
      && Authorised(p, t.completed[k].chain, t.completed[k].request)
      && (SetUp(configs) == Ok(p.site) ==>
            forall h :: h in t.completed[k].chain ==> h in configs && h.uriPath == t.completed[k].request.path)
  {
    InitInv(p, now);
    DaemonRunKeeps(p, Start(now), events);
    EndToEndOrder(p, now, events);
    var completed := Run(p, Start(now), events).value.completed;
    k := JobsAreAskedFor(p, completed, job);
    if SetUp(configs) == Ok(p.site) {
      ConfiguredChain(p, configs, completed[k].chain, completed[k].request);
      OfPathMembers(configs, completed[k].request.path);
    }
  }

  /** The numbers on the status page agree with each other, and its subtraction never underflows. */
  lemma StatusPageConsistent(p: Service, now: real, events: seq<Event>)
    requires Legal(p, Start(now), events) && Run(p, Start(now), events).Ok?
    ensures var t := Run(p, Start(now), events).value;
      && t.goodRequests <= t.requests
      && t.scheduled == t.actions.executed + |WaitingJobs(t.actions)|
      && t.actions.failed <= t.actions.executed <= t.scheduled
  {
    InitInv(p, now);
    DaemonRunKeeps(p, Start(now), events);
    ReachableInv(Run(p, Start(now), events).value.actions);
  }

  // ---------------------------------------------------------------- stopping

  /** Some event of the run is fatal. */
  ghost predicate HitsFatal(p: Service, s: State, events: seq<Event>)
    requires Legal(p, s, events)
    decreases |events|
  {
    events != [] &&
    (Fatal(p, s, events[0]) || (Step(p, s, events[0]).Ok? && HitsFatal(p, Step(p, s, events[0]).value, events[1..])))
  }

  /** A run stops if and only if one of its events is fatal. */
  lemma {:induction false} RunStopsIff(p: Service, s: State, events: seq<Event>)
    requires DaemonInv(p, s) && Legal(p, s, events)
    ensures Run(p, s, events).Err? <==> HitsFatal(p, s, events)
    decreases |events|
  {
    if events == [] {
    } else {
      StopsIff(p, s, events[0]);
      if Step(p, s, events[0]).Ok? {
        RunStopsIff(p, Step(p, s, events[0]).value, events[1..]);
      }
    }
  }

  /** No body that is received in the run is longer than the limit. */
  ghost predicate WithinLimit(p: Service, s: State, events: seq<Event>)
    requires Legal(p, s, events)
    decreases |events|
  {
    events == [] ||
    (&& (events[0].Receive? ==> |Concat(s.connections[events[0].c].received + [events[0].chunk])| <= p.limit)
     && (Step(p, s, events[0]).Ok? ==> WithinLimit(p, Step(p, s, events[0]).value, events[1..])))
  }

  ghost predicate NoneOverlong(p: Service, s: State) {
    forall c :: c in s.connections ==> !Overlong(p, s.connections[c])
  }

  lemma NoneOverlongStep(p: Service, s: State, e: Event)
    requires Enabled(s, e) && NoneOverlong(p, s) && Step(p, s, e).Ok?
    requires e.Receive? ==> |Concat(s.connections[e.c].received + [e.chunk])| <= p.limit
    ensures NoneOverlong(p, Step(p, s, e).value)
  {
    match e
    case Connect(c, m, request) => ConnectIsEmpty(p, s, c, m, request);
    case Finish(c) => assert NoneOverlong(p, s.(connections := s.connections - {c}));
    case _ =>
  }

  lemma ConnectIsEmpty(p: Service, s: State, c: nat, httpMethod: Method, request: Hooks.Request)
    requires c !in s.connections && NoneOverlong(p, s)
    ensures NoneOverlong(p, OnConnect(p, s, c, httpMethod, request))
  {
    var t := OnConnect(p, s, c, httpMethod, request);
    if c in t.connections {
      assert t.connections[c].received == [] && !Overlong(p, t.connections[c]);
    }
  }

  /** With no body over the limit the program runs on forever. */
  lemma {:induction false} RunsOn(p: Service, s: State, events: seq<Event>)
    requires DaemonInv(p, s) && NoneOverlong(p, s) && Legal(p, s, events) && WithinLimit(p, s, events)
    ensures Run(p, s, events).Ok?
    decreases |events|
  {
    if events == [] {
    } else {
      StopsIff(p, s, events[0]);
      assert !Fatal(p, s, events[0]);
      NoneOverlongStep(p, s, events[0]);
      RunsOn(p, Step(p, s, events[0]).value, events[1..]);
    }
  }

  /**
   Requests are ordered by when their bodies are complete: of any two open requests within the limit
   either one can come first, whatever their arrival. Arrivals says when that makes a difference.
   */
  lemma EitherCanFinishFirst(p: Service, s: State, c: nat, d: nat)
    requires DaemonInv(p, s) && c != d && c in s.connections && d in s.connections
    requires !Overlong(p, s.connections[c]) && !Overlong(p, s.connections[d])
    ensures OnFinish(p, s, c).Ok? && OnFinish(p, OnFinish(p, s, c).value, d).Ok?
    ensures var first, second := s.connections[c], s.connections[d];
      OnFinish(p, OnFinish(p, s, c).value, d).value.completed ==
      s.completed + [Completion(first.chain, first.request, Concat(first.received), first.arrival),
                     Completion(second.chain, second.request, Concat(second.received), second.arrival)]
  {
    var t := Finished(p, s, c);
    FinishResult(p, s, c);
    assert t.connections[d] == s.connections[d] && Open(p, s.connections[d]);
    FinishResult(p, t, d);
    BothFinished(p, s, c, d);
  }

  lemma BothFinished(p: Service, s: State, c: nat, d: nat)
    requires c != d && c in s.connections && d in s.connections
    ensures var first, second := s.connections[c], s.connections[d];
      Finished(p, Finished(p, s, c), d).completed ==
      s.completed + [Completion(first.chain, first.request, Concat(first.received), first.arrival),
                     Completion(second.chain, second.request, Concat(second.received), second.arrival)]
  {
  }
}
