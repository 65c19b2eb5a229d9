/**
 The loop of main() and the callbacks of the HTTP server over the objects: hooks are created, chained
 and registered, and a request whose body is complete is handled by its chain.
 */
module Program {
  import opened Wrappers
  import opened Routing
  import opened Setup
  import opened HookChain
  import Hooks
  import Requests
  import Scheduler
  import ActionList
  import Daemon

  datatype Handler = StatusHandler | HookHandler(hook: Hook)

  /** The head of a chain with these hooks, all of which are in repr. */
  ghost predicate IsHead(hook: Hook, chain: seq<Hooks.Config>, repr: set<Hook>)
    reads repr
  {
    && hook in repr && (forall h :: h in hook.chain ==> h in repr)
    && hook.Valid() && Configs(hook.chain) == chain
  }

  /** The heads of the chains have the hooks of the site, and share none of them. All are in repr. */
  ghost predicate Chains(chains: seq<seq<Hooks.Config>>, hooks: seq<Hook>, repr: set<Hook>)
    reads repr
  {
    && |hooks| == |chains|
    && (forall i :: 0 <= i < |hooks| ==> IsHead(hooks[i], chains[i], repr))
    && (forall i, j :: 0 <= i < j < |hooks| ==> hooks[i] !in hooks[j].chain && hooks[j] !in hooks[i].chain)
  }

  function HandlerOf(target: Target, hooks: seq<Hook>): Handler {
    match target
    case StatusPage => StatusHandler
    case Chained(i) => if i < |hooks| then HookHandler(hooks[i]) else StatusHandler
  }

  /** The registered handlers are those of the site. */
  ghost predicate Handlers(site: map<string, Target>, hooks: seq<Hook>, handlers: map<string, Handler>) {
    && handlers.Keys == site.Keys
    && forall p :: p in site ==> handlers[p] == HandlerOf(site[p], hooks) && (site[p].Chained? ==> site[p].chain < |hooks|)
  }

  /** std::find_if over the hooks from the last to the first. */
  method FindSameHook(hooks: seq<Hook>, path: string, ghost chains: seq<seq<Hooks.Config>>, ghost repr: set<Hook>)
    returns (i: nat)
    requires Chains(chains, hooks, repr)
    ensures i == FindSame(chains, path)
  {
    HeadsOfChains(chains, hooks, repr);
    var k: nat := |hooks|;
    while k > 0 && hooks[k - 1].config.uriPath != path
      invariant 0 <= k <= |hooks|
      invariant forall j :: k <= j < |hooks| ==> hooks[j].config.uriPath != path
    {
      k := k - 1;
    }
    LastIsFound(chains, path, if k > 0 then k - 1 else |hooks|);
    return if k > 0 then k - 1 else |hooks|;
  }

  lemma HeadsOfChains(chains: seq<seq<Hooks.Config>>, hooks: seq<Hook>, repr: set<Hook>)
    requires Chains(chains, hooks, repr)
    ensures forall i :: 0 <= i < |hooks| ==> chains[i] != [] && hooks[i].config == chains[i][0]
  {
    forall i | 0 <= i < |hooks| ensures chains[i] != [] && hooks[i].config == chains[i][0] {
      assert hooks[i].chain[0] == hooks[i];
    }
  }

  /** What std::find_if from the end stops at. */
  lemma {:induction false} LastIsFound(chains: seq<seq<Hooks.Config>>, path: string, i: nat)
    requires i <= |chains| && forall j :: 0 <= j < |chains| ==> chains[j] != []
    requires i < |chains| ==> chains[i][0].uriPath == path
    requires forall j :: 0 <= j < |chains| && i < j ==> chains[j][0].uriPath != path
    requires i == |chains| ==> forall j :: 0 <= j < |chains| ==> chains[j][0].uriPath != path
    ensures FindSame(chains, path) == i
  {
    if chains == [] || i == |chains| - 1 {
    } else {
      var n := |chains| - 1;
      LastIsFound(chains[..n], path, if i < n then i else n);
    }
  }

  lemma {:induction false} SetUpFails(configs: seq<Hooks.Config>, k: nat)
    requires k <= |configs| && SetUp(configs[..k]).Err?
    ensures SetUp(configs) == SetUp(configs[..k])
    decreases |configs| - k
  {
    if k == |configs| {
      assert configs[..k] == configs;
    } else {
      assert configs[..k + 1][..k] == configs[..k];
      SetUpFails(configs, k + 1);
    }
  }

  lemma OneMoreHead(chains: seq<seq<Hooks.Config>>, hooks: seq<Hook>, repr: set<Hook>, hook: Hook)
    requires Chains(chains, hooks, repr) && hook.Valid() && hook.chain == [hook] && hook !in repr
    ensures Chains(chains + [[hook.config]], hooks + [hook], repr + {hook})
  {
    assert Configs([hook]) == [hook.config];
  }

  lemma AloneOrChained(hook: Hook)
    requires hook.Valid()
    ensures hook.next == null <==> |hook.chain| == 1
  {
    if |hook.chain| > 1 {
      assert hook.chain[0].next == hook.chain[1];
    }
  }

  /** The head of a chain of one gets its successor. */
  method ChainOnto(hooks: seq<Hook>, same: nat, hook: Hook, ghost chains: seq<seq<Hooks.Config>>, ghost repr: set<Hook>)
    requires Chains(chains, hooks, repr) && hook.Valid() && hook.chain == [hook] && hook !in repr
    requires same < |hooks| && hooks[same].next == null
    modifies hooks[same]
    ensures Chains(chains[same := chains[same] + [hook.config]], hooks, repr + {hook})
  {
    AloneOrChained(hooks[same]);
    hooks[same].Chain(hook);
    assert Configs([hooks[same], hook]) == [hooks[same].config] + [hook.config];
  }

  lemma OneMoreHandler(site: map<string, Target>, hooks: seq<Hook>, handlers: map<string, Handler>, key: string, hook: Hook)
    requires Handlers(site, hooks, handlers)
    ensures Handlers(site[key := Chained(|hooks|)], hooks + [hook], handlers[key := HookHandler(hook)])
  {
  }

  /** The outcome of adding a hook, in terms of the site. */
  ghost predicate Adds(site: Site, c: Hooks.Config, error: Option<SetupError>, hooks: seq<Hook>, repr: set<Hook>,
                       handlers: map<string, Handler>)
    reads repr
  {
    match AddHook(site, c)
    case Err(e) => error == Some(e)
    case Ok(s) => error == None && Chains(s.chains, hooks, repr) && Handlers(s.handlers, hooks, handlers)
  }

  /** Registering the head of a new chain. */
  method RegisterHead(hook: Hook, server: Server<Handler>, hooks: seq<Hook>, ghost handlers: map<string, Target>)
    returns (r: Result<(), RegisterError>)
    requires server.Valid() && Handlers(handlers, hooks, server.handlers)
    modifies server
    ensures server.Valid()
    ensures match Register(handlers, hook.config.uriPath, Chained(|hooks|))
            case Err(e) => r == Err(e)
            case Ok(m) => r.Ok? && Handlers(m, hooks + [hook], server.handlers)
  {
    OneMoreHandler(handlers, hooks, server.handlers, Normalise(hook.config.uriPath), hook);
    r := server.AddHandler(hook.config.uriPath, HookHandler(hook));
  }

  /** The first hook of a path becomes a head and is registered. */
  method AddHead(hook: Hook, server: Server<Handler>, hooks: seq<Hook>, ghost site: Site, ghost repr: set<Hook>)
    returns (error: Option<SetupError>, more: seq<Hook>)
    requires server.Valid() && Chains(site.chains, hooks, repr) && Handlers(site.handlers, hooks, server.handlers)
    requires hook.Valid() && hook.chain == [hook] && hook !in repr
    requires FindSame(site.chains, hook.config.uriPath) == |hooks|
    modifies server
    ensures server.Valid() && Adds(site, hook.config, error, more, repr + {hook}, server.handlers)
  {
    var added := RegisterHead(hook, server, hooks, site.handlers);
    OneMoreHead(site.chains, hooks, repr, hook);
    return if added.Err? then Some(Unregistrable(added.error)) else None, hooks + [hook];
  }

  /** A further hook of a path is chained to the head, which fails if that has a successor. */
  method AddToChain(same: nat, hook: Hook, hooks: seq<Hook>, ghost site: Site, ghost repr: set<Hook>,
                    ghost handlers: map<string, Handler>)
    returns (error: Option<SetupError>)
    requires Chains(site.chains, hooks, repr) && Handlers(site.handlers, hooks, handlers)
    requires hook.Valid() && hook.chain == [hook] && hook !in repr
    requires FindSame(site.chains, hook.config.uriPath) == same < |hooks|
    modifies hooks[same]
    ensures Adds(site, hook.config, error, hooks, repr + {hook}, handlers)
  {
    AloneOrChained(hooks[same]);
    if hooks[same].next != null {
      return Some(AlreadyChained);
    }
    ChainOnto(hooks, same, hook, site.chains, repr);
    return None;
  }

  /** One round of the loop of main(): the hook becomes a head of its own or is chained to one. */
  method AddConfigured(c: Hooks.Config, server: Server<Handler>, hooks: seq<Hook>, ghost site: Site, ghost repr: set<Hook>)
    returns (error: Option<SetupError>, more: seq<Hook>, ghost moreRepr: set<Hook>)
    requires server.Valid() && Chains(site.chains, hooks, repr) && Handlers(site.handlers, hooks, server.handlers)
    modifies server, hooks
    ensures server.Valid() && fresh(moreRepr - repr)
    ensures Adds(site, c, error, more, moreRepr, server.handlers)
  {
    var nhook := new Hook(c);
    moreRepr := repr + {nhook};
    var same := FindSameHook(hooks, c.uriPath, site.chains, repr);
    if same == |hooks| {
      error, more := AddHead(nhook, server, hooks, site, repr);
    } else {
      more := hooks;
      error := AddToChain(same, nhook, hooks, site, repr, server.handlers);
    }
  }

  /** The loop of main() over the configured hooks. */
  method SetUpHooks(configs: seq<Hooks.Config>, server: Server<Handler>)
    returns (error: Option<SetupError>, hooks: seq<Hook>, ghost repr: set<Hook>)
    requires server.Valid() && server.handlers == map[STATUS_PATH := StatusHandler]
    modifies server
    ensures server.Valid()
    ensures match SetUp(configs)
            case Err(e) => error == Some(e)
            case Ok(site) => error == None && Chains(site.chains, hooks, repr) && Handlers(site.handlers, hooks, server.handlers)
  {
    error, hooks, repr := None, [], {};
    ghost var site := EMPTY_SITE;
    for k := 0 to |configs|
      invariant SetUp(configs[..k]) == Ok(site) && error == None
      invariant server.Valid() && fresh(repr)
      invariant Chains(site.chains, hooks, repr) && Handlers(site.handlers, hooks, server.handlers)
    {
      assert configs[..k + 1][..k] == configs[..k];
      assert SetUp(configs[..k + 1]) == AddHook(site, configs[k]);
      error, hooks, repr := AddConfigured(configs[k], server, hooks, site, repr);
      if error.Some? {
        SetUpFails(configs, k + 1);
        return;
      }
      site := AddHook(site, configs[k]).value;
    }
    assert configs[..|configs|] == configs;
  }

  /** What newRequest comes to: an open request, an answer, the status page, or a closed connection. */
  datatype Reply = Opened(message: Requests.Request, hook: Hook) | Answered(code: int) | ShowStatus | Closed

  /** What the handler decides, and what newRequest makes of it. */
  ghost predicate Decided(reply: Reply, decision: Hooks.Decision, hook: Hook, limit: nat)
    reads if reply.Opened? then {reply.message} else {}
  {
    match decision
    case Throw => reply == Closed
    case Respond(code) => reply == Answered(code)
    case Accept =>
      && reply.Opened? && reply.hook == hook && reply.message.HasBody()
      && reply.message.Abs() == Requests.Accept(Requests.NewMessage(limit))
  }

  /** newRequest as it follows from the site. */
  ghost predicate Replies(reply: Reply, site: Site, hooks: seq<Hook>, limit: nat, httpMethod: Requests.Method,
                          request: Hooks.Request)
    reads if reply.Opened? then {reply.message} else {}
  {
    if httpMethod.Other? then reply == Answered(405)
    else
      match Route(site, request.path)
      case None => reply == Answered(404)
      case Some(StatusPage) => reply == ShowStatus
      case Some(Chained(i)) =>
        && i < |hooks| && i < |site.chains| && site.chains[i] != []
        && Decided(reply, Hooks.Decide(site.chains[i], request), hooks[i], limit)
  }

  /** The handler that is found is the one the site has for the path. */
  lemma FoundIsRouted(site: Site, hooks: seq<Hook>, handlers: map<string, Handler>, path: string, found: Option<Handler>)
    requires Handlers(site.handlers, hooks, handlers) && forall p :: p in handlers ==> Rooted(p)
    requires found.Some? <==> Rooted(path) && exists p :: p in handlers && Covers(p, path)
    requires forall p :: Rooted(path) && MostSpecific(handlers.Keys, path, p) ==> found == Some(handlers[p])
    ensures match Route(site, path)
            case None => found == None
            case Some(target) => found == Some(HandlerOf(target, hooks)) && (target.Chained? ==> target.chain < |hooks|)
  {
    if Rooted(path) {
      LookupMostSpecific(site.handlers.Keys, path);
      match Lookup(site.handlers.Keys, path)
      case None =>
      case Some(p) => assert MostSpecific(handlers.Keys, path, p);
    }
  }

  /** The part of newRequest that runs the handler of a hook. */
  method CallHandler(hook: Hook, limit: nat, httpMethod: Requests.Method, request: Hooks.Request) returns (reply: Reply)
    requires hook.Valid() && request.post == httpMethod.Post?
    ensures Decided(reply, Hooks.Decide(Configs(hook.chain), request), hook, limit)
    ensures reply.Opened? ==> fresh(reply.message)
  {
    var decision := hook.Receive(request);
    match decision
    case Throw => return Closed;
    case Respond(code) => return Answered(code);
    case Accept =>
      var message := new Requests.Request(limit, httpMethod);
      message.AcceptBody();
      return Opened(message, hook);
  }

  /** newRequest. Other is an HTTP method that the server does not know. */
  method NewRequest(server: Server<Handler>, limit: nat, httpMethod: Requests.Method, request: Hooks.Request,
                    ghost site: Site, ghost hooks: seq<Hook>, ghost repr: set<Hook>)
    returns (reply: Reply)
    requires server.Valid() && Chains(site.chains, hooks, repr) && Handlers(site.handlers, hooks, server.handlers)
    requires request.post == httpMethod.Post?
    ensures reply.Opened? ==> fresh(reply.message)
    ensures Replies(reply, site, hooks, limit, httpMethod, request)
  {
    if httpMethod.Other? {
      return Answered(405);
    }
    var found := server.FindHandler(request.path);
    FoundIsRouted(site, hooks, server.handlers, request.path, found);
    match found
    case None => return Answered(404);
    case Some(StatusHandler) => return ShowStatus;
    case Some(HookHandler(hook)) =>
      ghost var i := Route(site, request.path).value.chain;
      assert hook == hooks[i] && hook.Valid() && Configs(hook.chain) == site.chains[i];
      reply := CallHandler(hook, limit, httpMethod, request);
  }

  /** Responding leaves the action list as it is. */
  method AnswerKeeps(message: Requests.Request, queue: ActionList.ActionQueue, code: int)
    requires queue.Valid() && message.response.None?
    modifies message
    ensures queue.Valid() && queue.Abs() == old(queue.Abs())
    ensures Requests.Respond(old(message.Abs()), code) == Ok(message.Abs())
  {
    ghost var s := queue.Abs();
    message.Answer(code);
    assert queue.Represents(s);
  }

  /** So does marking the request as completed. */
  method BeginKeeps(message: Requests.Request, queue: ActionList.ActionQueue)
    requires queue.Valid() && message.stage == Requests.Accepted
    modifies message
    ensures queue.Valid() && queue.Abs() == old(queue.Abs())
    ensures message.Abs() == old(message.Abs()).(stage := Requests.Completed, runs := old(message.runs) + 1)
  {
    ghost var s := queue.Abs();
    message.Begin();
    assert queue.Represents(s);
  }

  /** The handler that hook::operator() left with the request, and its response. */
  method RunHandler(message: Requests.Request, hook: Hook, queue: ActionList.ActionQueue,
                    token: string, peer: string, event: string, body: Option<Hooks.Payload>)
    requires hook.Valid() && queue.Valid() && message.response.None?
    modifies message, queue
    ensures queue.Valid()
    ensures var walk := Hooks.HandleBody(Configs(hook.chain), token, peer, event, body);
      && queue.Abs() == Scheduler.AppendAll(old(queue.Abs()), walk.jobs)
      && Requests.Respond(old(message.Abs()), Hooks.ResponseTo(walk)) == Ok(message.Abs())
  {
    var code := hook.Handle(queue, token, peer, event, body);
    AnswerKeeps(message, queue, code);
  }

  /**
   completeRequest for a request that a chain of hooks has accepted: its handler runs on the content
   and its response is stored. aborted is true where the assert at the beginning fails.
   */
  method CompleteRequest(message: Requests.Request, hook: Hook, queue: ActionList.ActionQueue,
                         token: string, peer: string, event: string, parse: string -> Option<Hooks.Payload>)
    returns (aborted: bool)
    requires hook.Valid() && queue.Valid()
    requires message.HasBody() && (message.stage == Requests.Accepted ==> message.response.None?)
    modifies message, queue
    ensures queue.Valid()
    ensures aborted ==> queue.Abs() == old(queue.Abs())
    ensures var walk := Hooks.HandleBody(Configs(hook.chain), token, peer, event, parse(old(message.content)));
      && (!aborted ==> queue.Abs() == Scheduler.AppendAll(old(queue.Abs()), walk.jobs))
      && Requests.Complete(old(message.Abs()), _ => Some(Hooks.ResponseTo(walk))) ==
         if aborted then Err(Requests.NotAccepted) else Ok(message.Abs())
  {
    if message.stage != Requests.Accepted {
      return true;
    }
    BeginKeeps(message, queue);
    RunHandler(message, hook, queue, token, peer, event, parse(message.Content()));
    return false;
  }

  // ---------------------------------------------------------------- the connections of the daemon

  /** The objects of an open request are what the daemon has for its connection. */
  ghost predicate Serves(message: Requests.Request, hook: Hook, conn: Daemon.Connection)
    reads message, hook, hook.chain
  {
    hook.Valid() && message.HasBody() && message.Abs() == conn.message && Configs(hook.chain) == conn.chain
  }

  /** newRequest opens a request exactly when the daemon opens a connection, and for the same chain. */
  lemma ReplyIsConnect(p: Daemon.Service, s: Daemon.State, c: nat, httpMethod: Requests.Method, request: Hooks.Request,
                       reply: Reply, hooks: seq<Hook>, repr: set<Hook>)
    requires c !in s.connections && Chains(p.site.chains, hooks, repr)
    requires Replies(reply, p.site, hooks, p.limit, httpMethod, request)
    ensures var t := Daemon.OnConnect(p, s, c, httpMethod, request);
      if reply.Opened? then
        && t.connections == s.connections[c := Daemon.Connection(reply.message.Abs(), Configs(reply.hook.chain), request, [], s.requests)]
        && Serves(reply.message, reply.hook, t.connections[c])
      else t.connections == s.connections
  {
    if !httpMethod.Other? {
      match Route(p.site, request.path)
      case None =>
      case Some(StatusPage) =>
      case Some(Chained(i)) => assert IsHead(hooks[i], p.site.chains[i], repr);
    }
  }

  /** What the daemon makes of the end of a body, given what completeRequest does. */
  lemma CompleteIsFinish(p: Daemon.Service, s: Daemon.State, c: nat, aborted: bool,
                         message: Requests.Message, actions: Scheduler.State)
    requires c in s.connections && s.connections[c].request.peer.Some?
    requires var conn := s.connections[c];
      var walk := Daemon.WalkOf(p, conn.chain, conn.request, conn.message.content);
      && (!aborted ==> actions == Scheduler.AppendAll(s.actions, walk.jobs))
      && Requests.Complete(conn.message, _ => Some(Hooks.ResponseTo(walk))) ==
         if aborted then Err(Requests.NotAccepted) else Ok(message)
    ensures Daemon.OnFinish(p, s, c).Err? == aborted
    ensures !aborted ==>
      && Daemon.OnFinish(p, s, c).value.actions == actions
      && Daemon.OnFinish(p, s, c).value.connections == s.connections - {c}
  {
  }

  /** The end of a body on connection c: the objects do what the daemon does. */
  method FinishConnection(message: Requests.Request, hook: Hook, queue: ActionList.ActionQueue,
                          p: Daemon.Service, ghost s: Daemon.State, ghost c: nat, request: Hooks.Request)
    returns (aborted: bool)
    requires queue.Valid() && queue.Abs() == s.actions && request.peer.Some?
    requires c in s.connections && s.connections[c].request == request && Serves(message, hook, s.connections[c])
    requires message.stage == Requests.Accepted ==> message.response.None?
    modifies message, queue
    ensures queue.Valid()
    ensures match Daemon.OnFinish(p, s, c)
            case Err(_) => aborted
            case Ok(t) => !aborted && queue.Abs() == t.actions && t.connections == s.connections - {c}
  {
    aborted := CompleteRequest(message, hook, queue, request.token, request.peer.value, request.event, p.parse);
    CompleteIsFinish(p, s, c, aborted, message.Abs(), queue.Abs());
  }
}
