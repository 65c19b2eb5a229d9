/**
 A webhook: whether a request is authorised, what one hook makes of a Gitlab event, and the two
 walks over a chain of hooks, before and after the body of a request arrives.

 The JSON document is a typed record. None stands for a member that is missing or has the wrong
 type, which is where the JSON library throws. Only the project can be absent without an exception,
 in log_request; a project of the wrong type is Some(Project(None, None, None, None)).
 */
module Hooks {
  import opened Wrappers
  import opened Scheduler
  import CommandLine
  import Env = Environment

  // ---------------------------------------------------------------- data

  datatype Kind =
    | Debug
    | Pipeline(statuses: set<string>, jobNames: set<string>)

  /** A configured hook. An empty address admits every peer; the command is trimmed. */
  datatype Config = Config(
    uriPath: string,
    name: string,
    token: string,
    address: string,
    command: string,
    environment: seq<string>,
    timeout: int,
    kind: Kind)

  datatype Project = Project(id: Option<string>, path: Option<string>, title: Option<string>, url: Option<string>)

  datatype Attributes = Attributes(
    status: Option<string>, refName: Option<string>, sha: Option<string>, id: Option<nat>, tag: Option<string>)

  datatype Build = Build(name: Option<string>, status: Option<string>, id: Option<nat>)

  datatype Payload = Payload(
    project: Option<Project>,
    attributes: Option<Attributes>,
    builds: Option<seq<Build>>,
    text: string)

  /** A JSON exception, and any other exception. */
  datatype Error = BadRequest | Internal

  /** None: the hook ignores the request. Some: it accepts it and schedules the job. */
  type Verdict = Result<Option<Job>, Error>

  function At<T>(member: Option<T>): Result<T, Error> {
    if member.Some? then Ok(member.value) else Err(BadRequest)
  }

  // ---------------------------------------------------------------- hook::execute

  predicate OccursAt(s: string, pattern: string, i: nat) {
    i + |pattern| <= |s| && s[i..i + |pattern|] == pattern
  }

  /** std::string_view::find: the first occurrence at i or behind it. */
  function IndexOf(s: string, pattern: string, i: nat): (r: Option<nat>)
    ensures r.Some? ==> i <= r.value && OccursAt(s, pattern, r.value)
    ensures forall j :: i <= j < (if r.Some? then r.value else |s| + 1) ==> !OccursAt(s, pattern, j)
    decreases |s| - i
  {
    if i + |pattern| > |s| then None
    else if OccursAt(s, pattern, i) then Some(i)
    else IndexOf(s, pattern, i + 1)
  }

  /** The scheme and host of the project URL; an exception if there is no path behind them. */
  function ServerFrom(url: string): Result<string, Error> {
    match IndexOf(url, "://", 0)
    case None => Err(Internal)
    case Some(p) =>
      match IndexOf(url, "/", p + 3)
      case None => Err(Internal)
      case Some(q) => Ok(url[..q])
  }

  function ProjectEnvironment(payload: Payload): Result<seq<string>, Error> {
    var project :- At(payload.project);
    var id :- At(project.id);
    var path :- At(project.path);
    var title :- At(project.title);
    var url :- At(project.url);
    var server :- ServerFrom(url);
    Ok([Env.Setting("CI_PROJECT_ID", id), Env.Setting("CI_PROJECT_PATH", path), Env.Setting("CI_PROJECT_TITLE", title),
        Env.Setting("CI_PROJECT_URL", url), Env.Setting("CI_SERVER_URL", server)])
  }

  function Execute(hook: Config, payload: Payload, environment: seq<string>): Verdict {
    if hook.command == "" then Ok(None)
    else
      var project :- ProjectEnvironment(payload);
      Ok(Some(Job(hook.name,
                  Command(CommandLine.Executable(hook.command), CommandLine.Arguments(hook.command),
                          environment + project + hook.environment, hook.timeout))))
  }

  // ---------------------------------------------------------------- pipeline_hook::process

  datatype Match = Match(name: string, id: nat)

  /** A build counts if its name is configured and it succeeded. Members are read only as needed. */
  function MatchBuild(jobNames: set<string>, build: Build): Result<Option<Match>, Error> {
    var name :- At(build.name);
    if name !in jobNames then Ok(None)
    else
      var status :- At(build.status);
      if status != "success" then Ok(None)
      else
        var id :- At(build.id);
        Ok(Some(Match(name, id)))
  }

  /** The matching builds in the order of the event, or the first exception. */
  function Matches(jobNames: set<string>, builds: seq<Build>): Result<seq<Match>, Error> {
    if builds == [] then Ok([])
    else
      var n := |builds| - 1;
      var init :- Matches(jobNames, builds[..n]);
      var last :- MatchBuild(jobNames, builds[n]);
      Ok(if last.Some? then init + [last.value] else init)
  }

  function Names(matches: seq<Match>): seq<string> {
    seq(|matches|, i requires 0 <= i < |matches| => matches[i].name)
  }

  function Ids(matches: seq<Match>): seq<nat> {
    seq(|matches|, i requires 0 <= i < |matches| => matches[i].id)
  }

  function PipelineEnvironment(matches: seq<Match>, attributes: Attributes): Result<seq<string>, Error> {
    var refName :- At(attributes.refName);
    var sha :- At(attributes.sha);
    var id :- At(attributes.id);
    Ok([Env.ListEntry("CI_JOB_IDS", Env.Decimals(Ids(matches))),
        Env.ListEntry("CI_JOB_NAMES", Names(matches)),
        Env.Setting("CI_COMMIT_REF_NAME", refName), Env.Setting("CI_COMMIT_SHA", sha), Env.Setting("CI_PIPELINE_ID", Env.Decimal(id))] +
       if attributes.tag.Some? then [Env.Setting("CI_COMMIT_TAG", attributes.tag.value)] else [])
  }

  function ProcessPipeline(hook: Config, event: string, payload: Payload): Verdict
    requires hook.kind.Pipeline?
  {
    if event != "Pipeline Hook" then Ok(None)
    else
      var attributes :- At(payload.attributes);
      var status :- At(attributes.status);
      if hook.kind.statuses != {} && status !in hook.kind.statuses then Ok(None)
      else
        var builds :- At(payload.builds);
        var matches :- Matches(hook.kind.jobNames, builds);
        if matches == [] then Ok(None)
        else
          var environment :- PipelineEnvironment(matches, attributes);
          Execute(hook, payload, environment)
  }

  /** hook::process: a debug hook schedules a function that prints the event. */
  function Process(hook: Config, event: string, payload: Payload): Verdict {
    match hook.kind
    case Debug => Ok(Some(Job(hook.name, Function(event, payload.text))))
    case Pipeline(_, _) => ProcessPipeline(hook, event, payload)
  }

  // ---------------------------------------------------------------- the two walks

  predicate Eligible(hook: Config, token: string, peer: string) {
    hook.token == token && (hook.address == "" || peer == hook.address)
  }

  function EligibleHooks(chain: seq<Config>, token: string, peer: string): seq<Config> {
    if chain == [] then []
    else (if Eligible(chain[0], token, peer) then [chain[0]] else []) + EligibleHooks(chain[1..], token, peer)
  }

  /** What a walk did: the scheduled jobs in order, and the exception that ended it, if any. */
  datatype Walk = Walk(jobs: seq<Job>, error: Option<Error>)

  /** Processing hooks one after the other until one of them throws. */
  function ProcessAll(hooks: seq<Config>, event: string, payload: Payload): Walk {
    if hooks == [] then Walk([], None)
    else
      match Process(hooks[0], event, payload)
      case Err(e) => Walk([], Some(e))
      case Ok(verdict) =>
        var rest := ProcessAll(hooks[1..], event, payload);
        Walk((if verdict.Some? then [verdict.value] else []) + rest.jobs, rest.error)
  }

  /** log_request throws if there is a project without a URL. */
  function LogRequest(payload: Payload): Option<Error> {
    if payload.project.Some? && payload.project.value.url.None? then Some(BadRequest) else None
  }

  /** The handler that runs when the body has arrived. None: the body is no JSON. */
  function HandleBody(chain: seq<Config>, token: string, peer: string, event: string, body: Option<Payload>): Walk {
    match body
    case None => Walk([], Some(BadRequest))
    case Some(payload) =>
      if LogRequest(payload).Some? then Walk([], LogRequest(payload))
      else ProcessAll(EligibleHooks(chain, token, peer), event, payload)
  }

  function ResponseTo(walk: Walk): int {
    match walk.error
    case Some(BadRequest) => 400
    case Some(Internal) => 500
    case None => if walk.jobs != [] then 202 else 204
  }

  /** The request line and headers that hook::operator() looks at. None: no peer address. */
  datatype Request = Request(post: bool, path: string, token: string, event: string, peer: Option<string>)

  datatype Decision = Throw | Respond(code: int) | Accept

  function Decide(chain: seq<Config>, request: Request): Decision
    requires chain != []
  {
    if request.peer.None? then Throw
    else if !request.post then Respond(405)
    else if request.path != chain[0].uriPath then Respond(404)
    else if request.token == "" then Respond(401)
    else if EligibleHooks(chain, request.token, request.peer.value) == [] then Respond(403)
    else Accept
  }

  // ---------------------------------------------------------------- who is eligible

  /** The positions in a list whose first element is not counted yet. */
  ghost function Shift(at: seq<nat>): (r: seq<nat>)
    ensures |r| == |at| && forall k :: k in r <==> k > 0 && k - 1 in at
  {
    if at == [] then []
    else
      var r := [at[0] + 1] + Shift(at[1..]);
      assert forall k :: k in at <==> k == at[0] || k in at[1..];
      r
  }

  lemma {:induction false} ShiftAt(at: seq<nat>, i: nat)
    requires i < |at|
    ensures Shift(at)[i] == at[i] + 1
  {
    if i == 0 {
    } else {
      ShiftAt(at[1..], i - 1);
    }
  }

  ghost predicate Increasing(at: seq<nat>) {
    forall i, j :: 0 <= i < j < |at| ==> at[i] < at[j]
  }

  /** The hooks are those of the chain at the positions. */
  ghost predicate PointsTo(at: seq<nat>, hooks: seq<Config>, chain: seq<Config>) {
    |at| == |hooks| && forall i :: 0 <= i < |at| ==> at[i] < |chain| && chain[at[i]] == hooks[i]
  }

  /** The positions are those of all hooks that match. */
  ghost predicate AllEligible(at: seq<nat>, chain: seq<Config>, token: string, peer: string) {
    forall k :: 0 <= k < |chain| ==> (k in at <==> Eligible(chain[k], token, peer))
  }

  /** The positions in a chain with one more hook in front, which may be one of them. */
  ghost function Prepend(first: bool, at: seq<nat>): seq<nat> {
    (if first then [0] else []) + Shift(at)
  }

  lemma PrependIncreasing(first: bool, at: seq<nat>)
    requires Increasing(at)
    ensures Increasing(Prepend(first, at))
  {
    forall i | 0 <= i < |at| ensures Shift(at)[i] == at[i] + 1 {
      ShiftAt(at, i);
    }
  }

  lemma PrependPoints(first: bool, at: seq<nat>, hooks: seq<Config>, chain: seq<Config>)
    requires chain != [] && PointsTo(at, hooks, chain[1..])
    ensures PointsTo(Prepend(first, at), (if first then [chain[0]] else []) + hooks, chain)
  {
    var all := Prepend(first, at);
    forall i | 0 <= i < |all|
      ensures all[i] < |chain| && chain[all[i]] == ((if first then [chain[0]] else []) + hooks)[i]
    {
      var j := if first then i - 1 else i;
      if j >= 0 {
        ShiftAt(at, j);
        assert all[i] == at[j] + 1 && chain[1..][at[j]] == hooks[j];
      }
    }
  }

  lemma PrependEligible(at: seq<nat>, chain: seq<Config>, token: string, peer: string)
    requires chain != [] && AllEligible(at, chain[1..], token, peer)
    ensures AllEligible(Prepend(Eligible(chain[0], token, peer), at), chain, token, peer)
  {
    forall k | 0 <= k < |chain|
      ensures k in Prepend(Eligible(chain[0], token, peer), at) <==> Eligible(chain[k], token, peer)
    {
      if k > 0 {
        assert chain[k] == chain[1..][k - 1];
        assert k in Shift(at) <==> k - 1 in at;
      }
    }
  }

  /**
   Both walks, before and after the body, agree on who is eligible: exactly the hooks of the chain
   that match, each once and in the order of the chain. at says where they are.
   */
  lemma {:induction false} EligibleInOrder(chain: seq<Config>, token: string, peer: string) returns (at: seq<nat>)
    ensures PointsTo(at, EligibleHooks(chain, token, peer), chain)
    ensures Increasing(at) && AllEligible(at, chain, token, peer)
  {
    if chain == [] {
      at := [];
    } else {
      var rest := EligibleInOrder(chain[1..], token, peer);
      var first := Eligible(chain[0], token, peer);
      PrependPoints(first, rest, EligibleHooks(chain[1..], token, peer), chain);
      PrependIncreasing(first, rest);
      PrependEligible(rest, chain, token, peer);
      at := Prepend(first, rest);
    }
  }

  lemma EligibleIff(chain: seq<Config>, token: string, peer: string)
    ensures forall h :: h in EligibleHooks(chain, token, peer) <==> h in chain && Eligible(h, token, peer)
  {
    var at := EligibleInOrder(chain, token, peer);
    var hooks := EligibleHooks(chain, token, peer);
    forall h | h in chain && Eligible(h, token, peer) ensures h in hooks {
      var k :| 0 <= k < |chain| && chain[k] == h;
      assert k in at;
      var i :| 0 <= i < |at| && at[i] == k;
      assert hooks[i] == h;
    }
    forall h | h in hooks ensures h in chain && Eligible(h, token, peer) {
      var i :| 0 <= i < |hooks| && hooks[i] == h;
      assert at[i] in at;
    }
  }

  /** A request is accepted exactly if it posts to the very path and some hook admits its token and its peer. */
  lemma AcceptIff(chain: seq<Config>, request: Request)
    requires chain != []
    ensures Decide(chain, request) == Accept <==>
      && request.peer.Some? && request.post && request.path == chain[0].uriPath && request.token != ""
      && exists h :: h in chain && h.token == request.token && (h.address == "" || h.address == request.peer.value)
  {
    if request.peer.Some? {
      EligibleIff(chain, request.token, request.peer.value);
      var hooks := EligibleHooks(chain, request.token, request.peer.value);
      if h :| h in chain && h.token == request.token && (h.address == "" || h.address == request.peer.value) {
        assert h in hooks;
      }
      if hooks != [] {
        assert hooks[0] in hooks && hooks[0] in chain;
      }
    }
  }

  // ---------------------------------------------------------------- what a hook makes of an event

  /** A build that a pipeline hook is configured for, and that succeeded. */
  predicate Wanted(jobNames: set<string>, job: Build) {
    job.name.Some? && job.name.value in jobNames && job.status == Some("success")
  }

  /**
   The matches, whose names and ids are handed to the command as two parallel lists, are exactly the
   wanted builds, in the order of the event: at says where the builds are.
   */
  lemma {:induction false} MatchesInOrder(jobNames: set<string>, builds: seq<Build>) returns (at: seq<nat>)
    requires Matches(jobNames, builds).Ok?
    ensures var matches := Matches(jobNames, builds).value;
      && |at| == |matches|
      && (forall i :: 0 <= i < |at| ==> at[i] < |builds| && Wanted(jobNames, builds[at[i]]))
      && (forall i :: 0 <= i < |at| ==> builds[at[i]].name == Some(matches[i].name) && builds[at[i]].id == Some(matches[i].id))
      && Increasing(at)
      && (forall k :: 0 <= k < |builds| && Wanted(jobNames, builds[k]) ==> k in at)
  {
    if builds == [] {
      at := [];
    } else {
      var n := |builds| - 1;
      at := MatchesInOrder(jobNames, builds[..n]);
      if Wanted(jobNames, builds[n]) {
        at := at + [n];
      }
    }
  }

  ghost predicate AnyWanted(jobNames: set<string>, builds: seq<Build>) {
    exists k :: 0 <= k < |builds| && Wanted(jobNames, builds[k])
  }

  /** The status of a build is read only if its name is configured, and its id only if it succeeded too. */
  predicate BuildIncomplete(jobNames: set<string>, job: Build) {
    || job.name.None?
    || (job.name.value in jobNames && (job.status.None? || (job.status.value == "success" && job.id.None?)))
  }

  ghost predicate AnyIncomplete(jobNames: set<string>, builds: seq<Build>) {
    exists k :: 0 <= k < |builds| && BuildIncomplete(jobNames, builds[k])
  }

  /** The URL has a scheme and a path behind the host. */
  ghost predicate HasServer(url: string) {
    exists p, q :: OccursAt(url, "://", p) && p + 3 <= q && OccursAt(url, "/", q)
  }

  ghost predicate ProjectIncomplete(payload: Payload) {
    || payload.project.None? || payload.project.value.id.None? || payload.project.value.path.None?
    || payload.project.value.title.None? || payload.project.value.url.None?
    || !HasServer(payload.project.value.url.value)
  }

  /** What is read for the command once some build is wanted. */
  ghost predicate CommandIncomplete(hook: Config, attributes: Attributes, payload: Payload) {
    || attributes.refName.None? || attributes.sha.None? || attributes.id.None?
    || (hook.command != "" && ProjectIncomplete(payload))
  }

  predicate StatusAdmitted(hook: Config, status: string)
    requires hook.kind.Pipeline?
  {
    hook.kind.statuses == {} || status in hook.kind.statuses
  }

  /**
   The events on which processing throws, by what is missing in them. A pipeline hook looks at pipeline
   events only, at the builds only if the status is admitted, at the commit only if a build is wanted,
   and at the project only if there is a command as well.
   */
  ghost predicate Throws(hook: Config, event: string, payload: Payload) {
    && hook.kind.Pipeline? && event == "Pipeline Hook"
    && (payload.attributes.Some? && payload.attributes.value.status.Some? ==>
          && StatusAdmitted(hook, payload.attributes.value.status.value)
          && (payload.builds.Some? && !AnyIncomplete(hook.kind.jobNames, payload.builds.value) ==>
                && AnyWanted(hook.kind.jobNames, payload.builds.value)
                && CommandIncomplete(hook, payload.attributes.value, payload)))
  }

  /** The events that schedule something, by what is in them. */
  ghost predicate Accepts(hook: Config, event: string, payload: Payload) {
    hook.kind.Pipeline? ==>
      && event == "Pipeline Hook" && hook.command != ""
      && payload.attributes.Some? && payload.attributes.value.status.Some?
      && StatusAdmitted(hook, payload.attributes.value.status.value)
      && payload.builds.Some? && !AnyIncomplete(hook.kind.jobNames, payload.builds.value)
      && AnyWanted(hook.kind.jobNames, payload.builds.value)
      && !CommandIncomplete(hook, payload.attributes.value, payload)
  }

  lemma {:induction false} MatchesErrIff(jobNames: set<string>, builds: seq<Build>)
    ensures Matches(jobNames, builds).Err? <==> AnyIncomplete(jobNames, builds)
  {
    if builds == [] {
    } else {
      var n := |builds| - 1;
      MatchesErrIff(jobNames, builds[..n]);
      assert MatchBuild(jobNames, builds[n]).Err? <==> BuildIncomplete(jobNames, builds[n]);
      if AnyIncomplete(jobNames, builds[..n]) {
        var k :| 0 <= k < n && BuildIncomplete(jobNames, builds[..n][k]);
        assert BuildIncomplete(jobNames, builds[k]);
      }
      if k :| 0 <= k < n && BuildIncomplete(jobNames, builds[k]) {
        assert BuildIncomplete(jobNames, builds[..n][k]);
      }
    }
  }

  lemma ServerIff(url: string)
    ensures ServerFrom(url).Ok? <==> HasServer(url)
  {
    if HasServer(url) {
      var p, q :| OccursAt(url, "://", p) && p + 3 <= q && OccursAt(url, "/", q);
      assert IndexOf(url, "://", 0).Some? && IndexOf(url, "://", 0).value <= p;
    }
  }

  lemma ProjectErrIff(payload: Payload)
    ensures ProjectEnvironment(payload).Err? <==> ProjectIncomplete(payload)
  {
    if payload.project.Some? && payload.project.value.url.Some? {
      ServerIff(payload.project.value.url.value);
    }
  }

  lemma NoMatchesIff(jobNames: set<string>, builds: seq<Build>)
    requires Matches(jobNames, builds).Ok?
    ensures Matches(jobNames, builds).value != [] <==> AnyWanted(jobNames, builds)
  {
    var at := MatchesInOrder(jobNames, builds);
    if at != [] {
      assert Wanted(jobNames, builds[at[0]]);
    }
  }

  /** Processing throws on exactly those events, schedules on exactly those, and ignores all others. */
  lemma ProcessIff(hook: Config, event: string, payload: Payload)
    ensures Process(hook, event, payload).Err? <==> Throws(hook, event, payload)
    ensures Process(hook, event, payload).Ok? && Process(hook, event, payload).value.Some? <==> Accepts(hook, event, payload)
  {
    ProjectErrIff(payload);
    if hook.kind.Pipeline? && payload.builds.Some? {
      MatchesErrIff(hook.kind.jobNames, payload.builds.value);
      if Matches(hook.kind.jobNames, payload.builds.value).Ok? {
        NoMatchesIff(hook.kind.jobNames, payload.builds.value);
      }
    }
  }

  /**
   From the event to the environment of the command and back: the first entry of the environment
   decodes to the ids of exactly the wanted builds, in the order of the event.
   */
  lemma JobIdsArrive(hook: Config, event: string, payload: Payload) returns (at: seq<nat>)
    requires hook.kind.Pipeline? && Accepts(hook, event, payload)
    ensures payload.builds.Some? && Process(hook, event, payload).Ok? && Process(hook, event, payload).value.Some?
    ensures Process(hook, event, payload).value.value.body.Command?
    ensures var env := Process(hook, event, payload).value.value.body.env;
      && env != [] && |Env.ReadIds("CI_JOB_IDS", env[0])| == |at|
      && (forall i :: 0 <= i < |at| ==> at[i] < |payload.builds.value|)
      && (forall i :: 0 <= i < |at| ==> payload.builds.value[at[i]].id == Some(Env.ReadIds("CI_JOB_IDS", env[0])[i]))
      && Increasing(at)
      && (forall k :: 0 <= k < |payload.builds.value| ==> (k in at <==> Wanted(hook.kind.jobNames, payload.builds.value[k])))
  {
    FirstEntries(hook, event, payload);
    at := MatchesInOrder(hook.kind.jobNames, payload.builds.value);
    ListsOfMatches(Matches(hook.kind.jobNames, payload.builds.value).value);
  }

  ghost function NamesAt(at: seq<nat>, builds: seq<Build>): (r: seq<string>)
    requires forall i :: 0 <= i < |at| ==> at[i] < |builds| && builds[at[i]].name.Some?
    ensures |r| == |at| && forall i :: 0 <= i < |r| ==> r[i] == builds[at[i]].name.value
  {
    seq(|at|, i requires 0 <= i < |at| => builds[at[i]].name.value)
  }

  /**
   The second entry decodes to the names of exactly the wanted builds, in the order of the event, if
   and only if none of them contains a space. Neither entry is ever the bare name of its variable.
   */
  lemma JobNamesArrive(hook: Config, event: string, payload: Payload) returns (at: seq<nat>)
    requires hook.kind.Pipeline? && Accepts(hook, event, payload)
    ensures payload.builds.Some? && Process(hook, event, payload).Ok? && Process(hook, event, payload).value.Some?
    ensures Process(hook, event, payload).value.value.body.Command?
    ensures forall i :: 0 <= i < |at| ==> at[i] < |payload.builds.value| && Wanted(hook.kind.jobNames, payload.builds.value[at[i]])
    ensures Increasing(at)
    ensures forall k :: 0 <= k < |payload.builds.value| && Wanted(hook.kind.jobNames, payload.builds.value[k]) ==> k in at
    ensures var env, names := Process(hook, event, payload).value.value.body.env, NamesAt(at, payload.builds.value);
      && |env| >= 2 && "CI_JOB_IDS=" <= env[0] && "CI_JOB_NAMES=" <= env[1]
      && env[0] != "CI_JOB_IDS" && env[1] != "CI_JOB_NAMES"
      && (Env.ReadList("CI_JOB_NAMES", env[1]) == names <==> forall v :: v in names ==> Env.NoSpace(v))
  {
    FirstEntries(hook, event, payload);
    var matches := Matches(hook.kind.jobNames, payload.builds.value).value;
    at := MatchesInOrder(hook.kind.jobNames, payload.builds.value);
    assert NamesAt(at, payload.builds.value) == Names(matches);
    ListsOfMatches(matches);
  }

  /** The environment of an accepted event begins with the two lists of the matches. */
  lemma FirstEntries(hook: Config, event: string, payload: Payload)
    requires hook.kind.Pipeline? && Accepts(hook, event, payload)
    ensures payload.builds.Some? && Process(hook, event, payload).Ok? && Process(hook, event, payload).value.Some?
    ensures Process(hook, event, payload).value.value.body.Command?
    ensures Matches(hook.kind.jobNames, payload.builds.value).Ok?
    ensures var env, matches := Process(hook, event, payload).value.value.body.env, Matches(hook.kind.jobNames, payload.builds.value).value;
      && matches != [] && |env| >= 2
      && env[0] == Env.ListEntry("CI_JOB_IDS", Env.Decimals(Ids(matches)))
      && env[1] == Env.ListEntry("CI_JOB_NAMES", Names(matches))
  {
    ProcessIff(hook, event, payload);
    NoMatchesIff(hook.kind.jobNames, payload.builds.value);
  }

  lemma ListsOfMatches(matches: seq<Match>)
    requires matches != []
    ensures var ids, names := Env.ListEntry("CI_JOB_IDS", Env.Decimals(Ids(matches))), Env.ListEntry("CI_JOB_NAMES", Names(matches));
      && "CI_JOB_IDS=" <= ids && "CI_JOB_NAMES=" <= names && ids != "CI_JOB_IDS" && names != "CI_JOB_NAMES"
      && Env.ReadIds("CI_JOB_IDS", ids) == Ids(matches)
      && (Env.ReadList("CI_JOB_NAMES", names) == Names(matches) <==> forall v :: v in Names(matches) ==> Env.NoSpace(v))
  {
    Env.ReadListEntry("CI_JOB_IDS", Env.Decimals(Ids(matches)));
    Env.IdsReadBack("CI_JOB_IDS", Ids(matches));
    Env.ReadListEntry("CI_JOB_NAMES", Names(matches));
    Env.ListReadableIff(Names(matches));
    assert "CI_JOB_IDS" + "=" == "CI_JOB_IDS=" && "CI_JOB_NAMES" + "=" == "CI_JOB_NAMES=";
  }

  // ---------------------------------------------------------------- the walk after the body

  lemma {:induction false} WalkError(hooks: seq<Config>, event: string, payload: Payload)
    ensures ProcessAll(hooks, event, payload).error.Some? <==> exists i :: 0 <= i < |hooks| && Throws(hooks[i], event, payload)
  {
    if hooks == [] {
    } else {
      ProcessIff(hooks[0], event, payload);
      WalkError(hooks[1..], event, payload);
      assert forall i :: 0 < i < |hooks| ==> hooks[i] == hooks[1..][i - 1];
    }
  }

  /** The hook at position i accepts, and no hook before it throws: its job is scheduled. */
  ghost predicate AcceptsAt(hooks: seq<Config>, i: nat, event: string, payload: Payload)
    requires i < |hooks|
  {
    Accepts(hooks[i], event, payload) && forall k :: 0 <= k < i ==> !Throws(hooks[k], event, payload)
  }

  ghost predicate AcceptsInTime(hooks: seq<Config>, event: string, payload: Payload) {
    exists i :: 0 <= i < |hooks| && AcceptsAt(hooks, i, event, payload)
  }

  lemma AcceptsAtRest(hooks: seq<Config>, i: nat, event: string, payload: Payload)
    requires i + 1 < |hooks|
    ensures AcceptsAt(hooks, i + 1, event, payload) <==>
            !Throws(hooks[0], event, payload) && AcceptsAt(hooks[1..], i, event, payload)
  {
    var rest := hooks[1..];
    assert forall k :: 0 <= k < |rest| ==> rest[k] == hooks[k + 1];
    assert forall k :: 0 < k <= i ==> hooks[k] == rest[k - 1];
  }

  lemma AcceptsInTimeRest(hooks: seq<Config>, event: string, payload: Payload)
    requires hooks != []
    ensures AcceptsInTime(hooks, event, payload) <==>
            Accepts(hooks[0], event, payload) ||
            (!Throws(hooks[0], event, payload) && AcceptsInTime(hooks[1..], event, payload))
  {
    if i :| 0 <= i < |hooks| && AcceptsAt(hooks, i, event, payload) {
      if i > 0 {
        AcceptsAtRest(hooks, i - 1, event, payload);
      }
    }
    if Accepts(hooks[0], event, payload) {
      assert AcceptsAt(hooks, 0, event, payload);
    } else if i :| 0 <= i < |hooks[1..]| && AcceptsAt(hooks[1..], i, event, payload) {
      AcceptsAtRest(hooks, i, event, payload);
    }
  }

  lemma {:induction false} WalkJobs(hooks: seq<Config>, event: string, payload: Payload)
    ensures ProcessAll(hooks, event, payload).jobs != [] <==> AcceptsInTime(hooks, event, payload)
  {
    if hooks == [] {
    } else {
      ProcessIff(hooks[0], event, payload);
      AcceptsInTimeRest(hooks, event, payload);
      WalkJobs(hooks[1..], event, payload);
    }
  }

  /** The hook at position k of the chain is eligible and accepts, and no eligible one before it throws. */
  ghost predicate Schedules(chain: seq<Config>, k: nat, token: string, peer: string, event: string, payload: Payload)
    requires k < |chain|
  {
    && Eligible(chain[k], token, peer) && Accepts(chain[k], event, payload)
    && forall j :: 0 <= j < k && Eligible(chain[j], token, peer) ==> !Throws(chain[j], event, payload)
  }

  lemma SchedulesRest(chain: seq<Config>, k: nat, token: string, peer: string, event: string, payload: Payload)
    requires 0 < k < |chain|
    ensures Schedules(chain, k, token, peer, event, payload) <==>
      && (Eligible(chain[0], token, peer) ==> !Throws(chain[0], event, payload))
      && Schedules(chain[1..], k - 1, token, peer, event, payload)
  {
    var rest := chain[1..];
    assert forall j :: 0 <= j < |rest| ==> rest[j] == chain[j + 1];
    assert forall j :: 0 < j < k ==> chain[j] == rest[j - 1];
  }

  /** The positions of the hooks that schedule their jobs, and their jobs. */
  ghost predicate Places(at: seq<nat>, jobs: seq<Job>, chain: seq<Config>, token: string, peer: string, event: string, payload: Payload) {
    && |at| == |jobs|
    && (forall i :: 0 <= i < |at| ==> at[i] < |chain| && Process(chain[at[i]], event, payload) == Ok(Some(jobs[i])))
    && Increasing(at)
    && (forall k :: 0 <= k < |chain| ==> (k in at <==> Schedules(chain, k, token, peer, event, payload)))
  }

  lemma PlacesOneMore(at: seq<nat>, jobs: seq<Job>, chain: seq<Config>, token: string, peer: string, event: string, payload: Payload)
    requires chain != [] && Places(at, jobs, chain[1..], token, peer, event, payload)
    requires Eligible(chain[0], token, peer) ==> !Throws(chain[0], event, payload)
    ensures var first := Schedules(chain, 0, token, peer, event, payload);
      first ==> Process(chain[0], event, payload).Ok? && Process(chain[0], event, payload).value.Some?
    ensures var first := Schedules(chain, 0, token, peer, event, payload);
      Places(Prepend(first, at),
             (if first then [Process(chain[0], event, payload).value.value] else []) + jobs, chain, token, peer, event, payload)
  {
    ProcessIff(chain[0], event, payload);
    PrependIncreasing(Schedules(chain, 0, token, peer, event, payload), at);
    forall i | 0 <= i < |at| ensures Shift(at)[i] == at[i] + 1 {
      ShiftAt(at, i);
    }
    forall k | 0 < k < |chain|
      ensures k in Shift(at) <==> Schedules(chain, k, token, peer, event, payload)
    {
      SchedulesRest(chain, k, token, peer, event, payload);
    }
  }

  /**
   The jobs of a walk, in order: of the hooks of the chain exactly those schedule their job that are
   eligible, accept the event and come before any eligible one that throws, and the jobs are in the
   order of the chain. at says where the hooks are.
   */
  lemma {:induction false} WalkInOrder(chain: seq<Config>, token: string, peer: string, event: string, payload: Payload)
    returns (at: seq<nat>)
    ensures Places(at, ProcessAll(EligibleHooks(chain, token, peer), event, payload).jobs, chain, token, peer, event, payload)
  {
    if chain == [] {
      at := [];
    } else {
      var rest := EligibleHooks(chain[1..], token, peer);
      ProcessIff(chain[0], event, payload);
      if !Eligible(chain[0], token, peer) {
        var inner := WalkInOrder(chain[1..], token, peer, event, payload);
        PlacesOneMore(inner, ProcessAll(rest, event, payload).jobs, chain, token, peer, event, payload);
        assert [] + rest == rest && [] + ProcessAll(rest, event, payload).jobs == ProcessAll(rest, event, payload).jobs;
        at := Prepend(false, inner);
      } else {
        assert EligibleHooks(chain, token, peer) == [chain[0]] + rest;
        assert ([chain[0]] + rest)[1..] == rest;
        if Throws(chain[0], event, payload) {
          at := [];
        } else {
          var inner := WalkInOrder(chain[1..], token, peer, event, payload);
          PlacesOneMore(inner, ProcessAll(rest, event, payload).jobs, chain, token, peer, event, payload);
          at := Prepend(Schedules(chain, 0, token, peer, event, payload), inner);
        }
      }
    }
  }

  /**
   202 is meant to say that something was scheduled. It says so exactly unless the body can be logged
   and one eligible hook throws after another one was scheduled. Whatever the body is.
   */
  lemma AcceptedMeansScheduled(chain: seq<Config>, token: string, peer: string, event: string, body: Option<Payload>)
    ensures var walk := HandleBody(chain, token, peer, event, body);
      var hooks := EligibleHooks(chain, token, peer);
      (ResponseTo(walk) == 202 <==> walk.jobs != []) <==>
      !(&& body.Some? && LogRequest(body.value).None?
        && AcceptsInTime(hooks, event, body.value)
        && exists i :: 0 <= i < |hooks| && Throws(hooks[i], event, body.value))
  {
    if body.Some? {
      WalkJobs(EligibleHooks(chain, token, peer), event, body.value);
      WalkError(EligibleHooks(chain, token, peer), event, body.value);
    }
  }

  /** The exception happens: a debug hook before a pipeline hook, and an event without builds. */
  lemma ScheduledButRefused()
    ensures exists chain, token, peer, event, body ::
      var walk := HandleBody(chain, token, peer, event, body);
      |walk.jobs| == 1 && ResponseTo(walk) == 400
  {
    var debug := Config("/hook", "debug", "token", "", "", [], 60, Debug);
    var deploy := Config("/hook", "deploy", "token", "", "/bin/deploy", [], 60, Pipeline({}, {"build"}));
    var chain := [debug, deploy];
    var payload := Payload(None, Some(Attributes(Some("success"), None, None, None, None)), None, "{}");
    assert EligibleHooks(chain[1..], "token", "peer") == [deploy] by {
      assert chain[1..][1..] == [];
    }
    assert EligibleHooks(chain, "token", "peer") == [debug] + [deploy];
    var hooks := [debug] + [deploy];
    assert hooks[1..] == [deploy] && [deploy][1..] == [];
    assert Process(deploy, "Pipeline Hook", payload) == Err(BadRequest);
    assert ProcessAll([deploy], "Pipeline Hook", payload) == Walk([], Some(BadRequest));
    var walk := HandleBody(chain, "token", "peer", "Pipeline Hook", Some(payload));
    assert |walk.jobs| == 1 && ResponseTo(walk) == 400;
  }
}
