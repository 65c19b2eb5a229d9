/**
 The hooks as they are in the program: objects linked into chains, walked by loops that append to
 the action list as they go. What they do is what Hooks says.
 */
module HookChain {
  import opened Wrappers
  import opened Scheduler
  import opened Hooks
  import CommandLine
  import Env = Environment
  import ActionList

  // ---------------------------------------------------------------- one hook

  /** The loop of pipeline_hook::process over the builds, which fills two parallel lists. */
  method CollectJobs(jobNames: set<string>, builds: seq<Build>)
    returns (error: bool, names: seq<string>, ids: seq<string>)
    ensures error == Matches(jobNames, builds).Err?
    ensures !error ==> names == Names(Matches(jobNames, builds).value)
    ensures !error ==> ids == Env.Decimals(Ids(Matches(jobNames, builds).value))
  {
    error, names, ids := false, [], [];
    ghost var matches: seq<Match> := [];
    for i := 0 to |builds|
      invariant Matches(jobNames, builds[..i]) == Ok(matches)
      invariant names == Names(matches) && ids == Env.Decimals(Ids(matches))
    {
      assert builds[..i + 1][..i] == builds[..i];
      var job := builds[i];
      if job.name.None? {
        BuildFails(jobNames, builds, i + 1);
        return true, names, ids;
      }
      if job.name.value in jobNames {
        if job.status.None? {
          BuildFails(jobNames, builds, i + 1);
          return true, names, ids;
        }
        if job.status.value == "success" {
          if job.id.None? {
            BuildFails(jobNames, builds, i + 1);
            return true, names, ids;
          }
          matches := matches + [Match(job.name.value, job.id.value)];
          names := names + [job.name.value];
          ids := ids + [Env.Decimal(job.id.value)];
        }
      }
    }
    assert builds[..|builds|] == builds;
  }

  lemma {:induction false} BuildFails(jobNames: set<string>, builds: seq<Build>, i: nat)
    requires i <= |builds| && Matches(jobNames, builds[..i]).Err?
    ensures Matches(jobNames, builds).Err?
    decreases |builds| - i
  {
    if i == |builds| {
      assert builds[..i] == builds;
    } else {
      assert builds[..i + 1][..i] == builds[..i];
      BuildFails(jobNames, builds, i + 1);
    }
  }

  /** hook::execute for a command. */
  method ExecuteCommand(hook: Config, payload: Payload, environment: Env.Environment) returns (r: Verdict)
    modifies environment
    ensures r == Execute(hook, payload, old(environment.entries))
  {
    if hook.command == "" {
      return Ok(None);
    }
    var project :- At(payload.project);
    var id :- At(project.id);
    environment.SetVariable("CI_PROJECT_ID", id);
    var path :- At(project.path);
    environment.SetVariable("CI_PROJECT_PATH", path);
    var title :- At(project.title);
    environment.SetVariable("CI_PROJECT_TITLE", title);
    var url :- At(project.url);
    environment.SetVariable("CI_PROJECT_URL", url);
    var server :- ServerFrom(url);
    environment.SetVariable("CI_SERVER_URL", server);
    ghost var before := environment.entries;
    for i := 0 to |hook.environment|
      invariant environment.entries == before + hook.environment[..i]
    {
      environment.Set(hook.environment[i]);
    }
    assert hook.environment[..|hook.environment|] == hook.environment;
    assert environment.entries == old(environment.entries) + ProjectEnvironment(payload).value + hook.environment;
    var program, args := CommandLine.SplitCommand(hook.command);
    return Ok(Some(Job(hook.name, Command(program, args, environment.entries, hook.timeout))));
  }

  /** pipeline_hook::process. */
  method ProcessPipelineHook(hook: Config, event: string, payload: Payload) returns (r: Verdict)
    requires hook.kind.Pipeline?
    ensures r == Process(hook, event, payload)
  {
    if event != "Pipeline Hook" {
      return Ok(None);
    }
    var attributes :- At(payload.attributes);
    var status :- At(attributes.status);
    if hook.kind.statuses != {} && status !in hook.kind.statuses {
      return Ok(None);
    }
    var builds :- At(payload.builds);
    var error, names, ids := CollectJobs(hook.kind.jobNames, builds);
    if error {
      MatchesErr(hook.kind.jobNames, builds);
      return Err(BadRequest);
    }
    if names == [] {
      return Ok(None);
    }
    ghost var matches := Matches(hook.kind.jobNames, builds).value;
    var environment;
    error, environment := FillEnvironment(names, ids, attributes, matches);
    if error {
      return Err(BadRequest);
    }
    r := ExecuteCommand(hook, payload, environment);
  }

  /** The part of pipeline_hook::process that fills the environment. */
  method FillEnvironment(names: seq<string>, ids: seq<string>, attributes: Attributes, ghost matches: seq<Match>)
    returns (error: bool, environment: Env.Environment)
    requires names == Names(matches) && ids == Env.Decimals(Ids(matches))
    ensures fresh(environment)
    ensures PipelineEnvironment(matches, attributes) == if error then Err(BadRequest) else Ok(environment.entries)
  {
    environment := new Env.Environment();
    environment.SetList("CI_JOB_IDS", ids);
    environment.SetList("CI_JOB_NAMES", names);
    if attributes.refName.None? || attributes.sha.None? || attributes.id.None? {
      return true, environment;
    }
    environment.SetVariable("CI_COMMIT_REF_NAME", attributes.refName.value);
    environment.SetVariable("CI_COMMIT_SHA", attributes.sha.value);
    environment.SetVariable("CI_PIPELINE_ID", Env.Decimal(attributes.id.value));
    if attributes.tag.Some? {
      environment.SetVariable("CI_COMMIT_TAG", attributes.tag.value);
    }
    error := false;
    assert [ids, names] == [Env.Decimals(Ids(matches)), Names(matches)];
    assert environment.entries == PipelineEnvironment(matches, attributes).value;
  }

  lemma {:induction false} MatchesErr(jobNames: set<string>, builds: seq<Build>)
    requires Matches(jobNames, builds).Err?
    ensures Matches(jobNames, builds) == Err(BadRequest)
  {
    if builds == [] || Matches(jobNames, builds[..|builds| - 1]).Ok? {
    } else {
      MatchesErr(jobNames, builds[..|builds| - 1]);
    }
  }

  // ---------------------------------------------------------------- the chain

  /** AppendAll for one more job. */
  lemma AppendOneMore(s: State, jobs: seq<Job>, job: Job)
    ensures AppendAll(s, jobs + [job]) == Scheduler.Append(AppendAll(s, jobs), job)
  {
    assert (jobs + [job])[..|jobs|] == jobs;
  }

  function Accepted(verdict: Verdict): seq<Job> {
    if verdict.Ok? && verdict.value.Some? then [verdict.value.value] else []
  }

  /** What is left to do on the rest of a chain, after the jobs were scheduled. */
  function Remaining(jobs: seq<Job>, rest: seq<Config>, token: string, peer: string, event: string, payload: Payload): Walk {
    var walk := ProcessAll(EligibleHooks(rest, token, peer), event, payload);
    Walk(jobs + walk.jobs, walk.error)
  }

  /** What visiting one hook of the chain comes to. */
  function Visited(hook: Config, token: string, peer: string, event: string, payload: Payload): Walk {
    if !Eligible(hook, token, peer) then Walk([], None)
    else
      var verdict := Process(hook, event, payload);
      if verdict.Err? then Walk([], Some(verdict.error)) else Walk(Accepted(verdict), None)
  }

  lemma RemainingStep(jobs: seq<Job>, rest: seq<Config>, token: string, peer: string, event: string, payload: Payload)
    requires rest != []
    ensures var visit := Visited(rest[0], token, peer, event, payload);
      Remaining(jobs, rest, token, peer, event, payload) ==
      if visit.error.Some? then Walk(jobs, visit.error)
      else Remaining(jobs + visit.jobs, rest[1..], token, peer, event, payload)
  {
    var hooks := EligibleHooks(rest[1..], token, peer);
    var walk := ProcessAll(hooks, event, payload);
    var visit := Visited(rest[0], token, peer, event, payload);
    assert jobs + (visit.jobs + walk.jobs) == jobs + visit.jobs + walk.jobs;
    if Eligible(rest[0], token, peer) {
      FirstOfAll(rest[0], hooks, event, payload);
      assert jobs + [] == jobs;
    } else {
      assert [] + hooks == hooks;
      assert jobs + [] == jobs;
    }
  }

  lemma RemainingStart(chain: seq<Config>, token: string, peer: string, event: string, payload: Payload)
    ensures Remaining([], chain, token, peer, event, payload) == ProcessAll(EligibleHooks(chain, token, peer), event, payload)
  {
    var walk := ProcessAll(EligibleHooks(chain, token, peer), event, payload);
    assert [] + walk.jobs == walk.jobs;
  }

  lemma RemainingEnd(jobs: seq<Job>, token: string, peer: string, event: string, payload: Payload)
    ensures Remaining(jobs, [], token, peer, event, payload) == Walk(jobs, None)
  {
    assert jobs + [] == jobs;
  }

  lemma FirstOfAll(hook: Config, hooks: seq<Config>, event: string, payload: Payload)
    ensures ProcessAll([hook] + hooks, event, payload) ==
            var verdict := Process(hook, event, payload);
            if verdict.Err? then Walk([], Some(verdict.error))
            else Walk(Accepted(verdict) + ProcessAll(hooks, event, payload).jobs, ProcessAll(hooks, event, payload).error)
  {
    assert ([hook] + hooks)[1..] == hooks;
  }

  lemma {:induction false} AppendTwice(s: State, a: seq<Job>, b: seq<Job>)
    ensures AppendAll(AppendAll(s, a), b) == AppendAll(s, a + b)
  {
    if b == [] {
      assert a + b == a;
    } else {
      var n := |b| - 1;
      AppendTwice(s, a, b[..n]);
      assert a + b == (a + b[..n]) + [b[n]];
      AppendOneMore(s, a + b[..n], b[n]);
    }
  }

  /** The jobs that are scheduled after the next hook of the chain was visited. */
  lemma NextJobs(s: State, jobs: seq<Job>, rest: seq<Config>, token: string, peer: string, event: string, payload: Payload)
    returns (more: seq<Job>)
    requires rest != []
    ensures var visit := Visited(rest[0], token, peer, event, payload);
      && more == jobs + visit.jobs && (visit.error.Some? ==> visit.jobs == [] && more == jobs)
      && AppendAll(AppendAll(s, jobs), visit.jobs) == AppendAll(s, more)
      && Remaining(jobs, rest, token, peer, event, payload) ==
         if visit.error.Some? then Walk(more, visit.error) else Remaining(more, rest[1..], token, peer, event, payload)
  {
    var visit := Visited(rest[0], token, peer, event, payload);
    RemainingStep(jobs, rest, token, peer, event, payload);
    AppendTwice(s, jobs, visit.jobs);
    more := jobs + visit.jobs;
    if visit.error.Some? {
      assert jobs + [] == jobs;
    }
  }

  function Configs(hooks: seq<Hook>): (r: seq<Config>)
    ensures |r| == |hooks| && forall i :: 0 <= i < |r| ==> r[i] == hooks[i].config
  {
    seq(|hooks|, i requires 0 <= i < |hooks| => hooks[i].config)
  }

  class Hook {
    const config: Config
    var next: Hook?
    ghost var chain: seq<Hook>  // for the head of a chain: its hooks

    ghost predicate Valid()
      reads this, chain
    {
      && chain != [] && chain[0] == this && chain[|chain| - 1].next == null
      && (forall i {:trigger chain[i].next} :: 0 <= i < |chain| - 1 ==> chain[i].next == chain[i + 1])
    }

    constructor (config: Config)
      ensures Valid() && chain == [this] && this.config == config && next == null
    {
      this.config := config;
      next, chain := null, [this];
    }

    /** hook::chain. Its assert is the precondition that nothing is chained yet. */
    method Chain(other: Hook)
      requires Valid() && other.Valid() && this !in other.chain
      requires next == null
      modifies this
      ensures Valid() && chain == [this] + other.chain
    {
      next := other;
      chain := [this] + other.chain;
    }

    /** The walk before the body: whether some hook of the chain admits the request. */
    method IsAllowed(token: string, peer: string) returns (allowed: bool)
      requires Valid()
      ensures allowed == (EligibleHooks(Configs(chain), token, peer) != [])
    {
      allowed := false;
      var iter: Hook? := this;
      ghost var k := 0;
      while iter != null
        invariant k <= |chain| && iter == if k < |chain| then chain[k] else null
        invariant (EligibleHooks(Configs(chain), token, peer) != []) ==
                  (allowed || EligibleHooks(Configs(chain)[k..], token, peer) != [])
        decreases |chain| - k
      {
        if iter.config.token == token {
          if iter.config.address == "" || peer == iter.config.address {
            allowed := true;
          }
        }
        assert Configs(chain)[k..][1..] == Configs(chain)[k + 1..];
        iter := iter.next;
        k := k + 1;
      }
    }

    /** hook::operator(), on the head of the chain. */
    method Receive(request: Request) returns (decision: Decision)
      requires Valid()
      ensures decision == Decide(Configs(chain), request)
    {
      if request.peer.None? {
        return Throw;
      }
      if !request.post {
        return Respond(405);
      }
      if request.path != config.uriPath {
        return Respond(404);
      }
      if request.token == "" {
        return Respond(401);
      }
      var allowed := IsAllowed(request.token, request.peer.value);
      return if allowed then Accept else Respond(403);
    }

    /** process() as the derived class has it. */
    method ProcessOne(event: string, payload: Payload) returns (r: Verdict)
      ensures r == Process(config, event, payload)
    {
      match config.kind
      case Debug => r := Ok(Some(Job(config.name, Function(event, payload.text))));
      case Pipeline(_, _) => r := ProcessPipelineHook(config, event, payload);
    }

    /** One round of the loop: process() if the hook is eligible, and the append of execute(). */
    method Visit(queue: ActionList.ActionQueue, token: string, peer: string, event: string, payload: Payload)
      returns (error: Option<Error>, accepted: bool)
      requires queue.Valid()
      modifies queue
      ensures queue.Valid()
      ensures var visit := Visited(config, token, peer, event, payload);
        && queue.Abs() == AppendAll(old(queue.Abs()), visit.jobs)
        && error == visit.error && |visit.jobs| == if accepted then 1 else 0
    {
      error, accepted := None, false;
      if config.token == token {
        if config.address == "" || peer == config.address {
          ghost var s := queue.Abs();
          var verdict := ProcessOne(event, payload);
          assert queue.Shape() && queue.Abs() == s;
          if verdict.Err? {
            error := Some(verdict.error);
          } else if verdict.value.Some? {
            AppendOneMore(s, [], verdict.value.value);
            queue.Append(verdict.value.value);
            accepted := true;
          }
        }
      }
    }

    /**
     The handler that is given to request::accept, when the body has arrived: it appends the jobs of
     the walk to the action list, in its order, and returns the code it responds with.
     */
    method Handle(queue: ActionList.ActionQueue, token: string, peer: string, event: string, body: Option<Payload>)
      returns (code: int)
      requires Valid() && queue.Valid()
      modifies queue
      ensures queue.Valid()
      ensures var walk := HandleBody(Configs(chain), token, peer, event, body);
        queue.Abs() == AppendAll(old(queue.Abs()), walk.jobs) && code == ResponseTo(walk)
    {
      if body.None? || LogRequest(body.value).Some? {
        code := 400;
      } else {
        code := WalkChain(queue, token, peer, event, body.value);
      }
    }

    method WalkChain(queue: ActionList.ActionQueue, token: string, peer: string, event: string, payload: Payload)
      returns (code: int)
      requires Valid() && queue.Valid()
      modifies queue
      ensures queue.Valid()
      ensures var walk := ProcessAll(EligibleHooks(Configs(chain), token, peer), event, payload);
        queue.Abs() == AppendAll(old(queue.Abs()), walk.jobs) && code == ResponseTo(walk)
    {
      var error, count := VisitAll(queue, token, peer, event, payload);
      if error.Some? {
        return if error.value.BadRequest? then 400 else 500;
      }
      return if count > 0 then 202 else 204;
    }

    /** The loop over the chain. It ends at the end of the chain or with an exception. */
    method VisitAll(queue: ActionList.ActionQueue, token: string, peer: string, event: string, payload: Payload)
      returns (error: Option<Error>, count: int)
      requires Valid() && queue.Valid()
      modifies queue
      ensures queue.Valid()
      ensures var walk := ProcessAll(EligibleHooks(Configs(chain), token, peer), event, payload);
        queue.Abs() == AppendAll(old(queue.Abs()), walk.jobs) && error == walk.error && count == |walk.jobs|
    {
      ghost var configs := Configs(chain);
      ghost var s, walk := queue.Abs(), ProcessAll(EligibleHooks(configs, token, peer), event, payload);
      ghost var jobs: seq<Job> := [];
      ghost var k := 0;
      count := 0;
      var iter: Hook? := this;
      RemainingStart(configs, token, peer, event, payload);
      assert configs[0..] == configs;
      while iter != null
        invariant k <= |chain| && iter == if k < |chain| then chain[k] else null
        invariant queue.Valid() && queue.Abs() == AppendAll(s, jobs) && count == |jobs|
        invariant Remaining(jobs, configs[k..], token, peer, event, payload) == walk
        decreases |chain| - k
      {
        assert configs[k..][1..] == configs[k + 1..];
        var accepted;
        error, accepted, jobs := iter.VisitNext(queue, token, peer, event, payload, s, jobs, configs[k..]);
        if error.Some? {
          return;
        }
        if accepted {
          count := count + 1;
        }
        iter := iter.next;
        k := k + 1;
      }
      RemainingEnd(jobs, token, peer, event, payload);
      assert configs[k..] == [];
      error := None;
    }

    /** Visit, in terms of the walk: rest is what is left of the chain, and jobs were scheduled before. */
    method VisitNext(queue: ActionList.ActionQueue, token: string, peer: string, event: string, payload: Payload,
                     ghost s: State, ghost jobs: seq<Job>, ghost rest: seq<Config>)
      returns (error: Option<Error>, accepted: bool, ghost more: seq<Job>)
      requires queue.Valid() && queue.Abs() == AppendAll(s, jobs) && rest != [] && rest[0] == config
      modifies queue
      ensures queue.Valid() && queue.Abs() == AppendAll(s, more)
      ensures |more| == |jobs| + (if accepted then 1 else 0) && (error.Some? ==> !accepted)
      ensures Remaining(jobs, rest, token, peer, event, payload) ==
              if error.Some? then Walk(more, error) else Remaining(more, rest[1..], token, peer, event, payload)
    {
      more := NextJobs(s, jobs, rest, token, peer, event, payload);
      error, accepted := Visit(queue, token, peer, event, payload);
    }
  }
}
