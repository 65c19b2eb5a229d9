/**
 What a command gets, as the command sees it: the variables it reads from its environment, its program
 and arguments, its name and its timeout.
 */
module Jobs {
  import opened Wrappers
  import opened Scheduler
  import opened Hooks
  import CommandLine
  import Env = Environment

  // ---------------------------------------------------------------- reading an environment

  predicate Defines(entry: string, name: string) {
    name + "=" <= entry
  }

  /** getenv: the value of the first entry that starts with the name and '='. */
  function GetEnv(env: seq<string>, name: string): Option<string> {
    if env == [] then None
    else if Defines(env[0], name) then Some(env[0][|name| + 1..])
    else GetEnv(env[1..], name)
  }

  predicate NoEquals(name: string) {
    forall i :: 0 <= i < |name| ==> name[i] != '='
  }

  /** An entry defines one name only. */
  lemma DefinesOne(name: string, value: string, other: string)
    requires NoEquals(name) && NoEquals(other)
    ensures Defines(name + "=" + value, other) <==> name == other
  {
    var entry := name + "=" + value;
    assert entry[|name|] == '=' && forall i :: 0 <= i < |name| ==> entry[i] == name[i];
    if name == other {
      assert entry[..|name| + 1] == name + "=";
    }
    if Defines(entry, other) {
      assert entry[|other|] == (other + "=")[|other|] == '=';
      assert forall i :: 0 <= i < |other| ==> entry[i] == (other + "=")[i] == other[i];
      assert |other| == |name|;
      assert other == name;
    }
  }

  /** The entries of variables with different names that contain no '='. */
  ghost predicate Lists(env: seq<string>, names: seq<string>, values: seq<string>) {
    && |env| == |names| == |values|
    && (forall i :: 0 <= i < |env| ==> NoEquals(names[i]) && env[i] == names[i] + "=" + values[i])
    && (forall i, j :: 0 <= i < j < |names| ==> names[i] != names[j])
  }

  lemma {:induction false} GetListed(env: seq<string>, names: seq<string>, values: seq<string>, k: nat)
    requires Lists(env, names, values) && k < |names|
    ensures GetEnv(env, names[k]) == Some(values[k])
  {
    DefinesOne(names[0], values[0], names[k]);
    if k == 0 {
      assert (names[0] + "=" + values[0])[|names[0]| + 1..] == values[0];
    } else {
      GetListed(env[1..], names[1..], values[1..], k - 1);
    }
  }

  lemma {:induction false} GetUnlisted(env: seq<string>, names: seq<string>, values: seq<string>, name: string)
    requires Lists(env, names, values) && NoEquals(name) && name !in names
    ensures GetEnv(env, name) == None
  {
    if env == [] {
    } else {
      assert names[0] in names;
      DefinesOne(names[0], values[0], name);
      GetUnlisted(env[1..], names[1..], values[1..], name);
    }
  }

  /** What is appended to an environment does not hide what it has. */
  lemma {:induction false} GetFirst(own: seq<string>, more: seq<string>, name: string)
    requires GetEnv(own, name).Some?
    ensures GetEnv(own + more, name) == GetEnv(own, name)
  {
    if Defines(own[0], name) {
    } else {
      assert (own + more)[1..] == own[1..] + more;
      GetFirst(own[1..], more, name);
    }
  }

  // ---------------------------------------------------------------- the server of a project

  predicate SchemeAt(url: string, p: nat) {
    p + 3 <= |url| && url[p] == ':' && url[p + 1] == '/' && url[p + 2] == '/'
  }

  /** server is the URL up to the first slash behind the first "://". */
  ghost predicate IsServer(url: string, server: string) {
    exists p: nat, q: nat ::
      && SchemeAt(url, p) && (forall i: nat :: i < p ==> !SchemeAt(url, i))
      && p + 3 <= q < |url| && url[q] == '/' && (forall i :: p + 3 <= i < q ==> url[i] != '/')
      && server == url[..q]
  }

  lemma SchemeIs(url: string, p: nat)
    ensures OccursAt(url, "://", p) <==> SchemeAt(url, p)
  {
    if p + 3 <= |url| {
      var part := url[p..p + 3];
      assert part[0] == url[p] && part[1] == url[p + 1] && part[2] == url[p + 2];
      if SchemeAt(url, p) {
        assert part == "://";
      }
    }
  }

  lemma SlashIs(url: string, q: nat)
    ensures OccursAt(url, "/", q) <==> q < |url| && url[q] == '/'
  {
    if q < |url| {
      var part := url[q..q + 1];
      assert part == [url[q]];
    }
  }

  /** The server that is taken from a URL. */
  lemma ServerIs(url: string)
    requires ServerFrom(url).Ok?
    ensures IsServer(url, ServerFrom(url).value)
  {
    var p := IndexOf(url, "://", 0).value;
    var q := IndexOf(url, "/", p + 3).value;
    SchemeIs(url, p);
    SlashIs(url, q);
    forall i: nat | i < p ensures !SchemeAt(url, i) {
      SchemeIs(url, i);
    }
    forall i | p + 3 <= i < q ensures url[i] != '/' {
      SlashIs(url, i);
    }
  }

  // ---------------------------------------------------------------- the environment of a command

  function NamesOf(tag: bool): seq<string> {
    ["CI_JOB_IDS", "CI_JOB_NAMES", "CI_COMMIT_REF_NAME", "CI_COMMIT_SHA", "CI_PIPELINE_ID"] +
    (if tag then ["CI_COMMIT_TAG"] else []) +
    ["CI_PROJECT_ID", "CI_PROJECT_PATH", "CI_PROJECT_TITLE", "CI_PROJECT_URL", "CI_SERVER_URL"]
  }

  /** What tells the names apart: their length and two characters. */
  ghost function Mark(name: string): (int, char, char)
    requires |name| > 9
  {
    (|name|, name[4], name[|name| - 3])
  }

  ghost function MarksOf(tag: bool): seq<(int, char, char)> {
    [(10, 'O', 'I'), (12, 'O', 'M'), (18, 'O', 'A'), (13, 'O', 'S'), (14, 'I', '_')] +
    (if tag then [(13, 'O', 'T')] else []) +
    [(13, 'R', '_'), (15, 'R', 'A'), (16, 'R', 'T'), (14, 'R', 'U'), (13, 'E', 'U')]
  }

  lemma NamesAreMarked(tag: bool)
    ensures |NamesOf(tag)| == |MarksOf(tag)|
    ensures forall i :: 0 <= i < |NamesOf(tag)| ==> |NamesOf(tag)[i]| > 9 && Mark(NamesOf(tag)[i]) == MarksOf(tag)[i]
    ensures |"CI_COMMIT_TAG"| == 13 && Mark("CI_COMMIT_TAG") == (13, 'O', 'T')
  {
  }

  lemma NamesDiffer(tag: bool)
    ensures forall i, j :: 0 <= i < j < |NamesOf(tag)| ==> NamesOf(tag)[i] != NamesOf(tag)[j]
    ensures !tag ==> "CI_COMMIT_TAG" !in NamesOf(tag)
  {
    NamesAreMarked(tag);
    MarksDiffer(tag);
    var names, marks := NamesOf(tag), MarksOf(tag);
    forall i, j | 0 <= i < j < |names| ensures names[i] != names[j] {
      assert marks[i] != marks[j];
    }
    forall i | 0 <= i < |names| && !tag ensures names[i] != "CI_COMMIT_TAG" {
      assert marks[i] != (13, 'O', 'T');
    }
  }

  lemma MarksDiffer(tag: bool)
    ensures forall i, j :: 0 <= i < j < |MarksOf(tag)| ==> MarksOf(tag)[i] != MarksOf(tag)[j]
    ensures !tag ==> forall i :: 0 <= i < |MarksOf(tag)| ==> MarksOf(tag)[i] != (13, 'O', 'T')
  {
  }

  lemma NamesNoEquals(tag: bool)
    ensures forall i :: 0 <= i < |NamesOf(tag)| ==> NoEquals(NamesOf(tag)[i])
    ensures NoEquals("CI_COMMIT_TAG")
  {
  }

  /** The values, as they stand in the entries that precede the configured ones. */
  ghost function ValuesOf(matches: seq<Match>, attributes: Attributes, project: Project, server: string): seq<string>
    requires attributes.refName.Some? && attributes.sha.Some? && attributes.id.Some?
    requires project.id.Some? && project.path.Some? && project.title.Some? && project.url.Some?
  {
    [Env.Joined(Env.Decimals(Ids(matches))), Env.Joined(Names(matches)),
     attributes.refName.value, attributes.sha.value, Env.Decimal(attributes.id.value)] +
    (if attributes.tag.Some? then [attributes.tag.value] else []) +
    [project.id.value, project.path.value, project.title.value, project.url.value, server]
  }

  /** What an accepted event has. */
  lemma AcceptedHas(hook: Config, event: string, payload: Payload)
    requires hook.kind.Pipeline? && Accepts(hook, event, payload)
    ensures payload.builds.Some? && payload.attributes.Some? && payload.project.Some?
    ensures Matches(hook.kind.jobNames, payload.builds.value).Ok? && Matches(hook.kind.jobNames, payload.builds.value).value != []
    ensures var a := payload.attributes.value; a.refName.Some? && a.sha.Some? && a.id.Some?
    ensures var p := payload.project.value; p.id.Some? && p.path.Some? && p.title.Some? && p.url.Some? && ServerFrom(p.url.value).Ok?
  {
    FirstEntries(hook, event, payload);
    ServerIff(payload.project.value.url.value);
  }

  /** The entries of an accepted event before the configured ones are those of the variables. */
  lemma OwnEntries(hook: Config, event: string, payload: Payload, own: seq<string>)
    requires hook.kind.Pipeline? && Accepts(hook, event, payload)
    requires Process(hook, event, payload).Ok? && Process(hook, event, payload).value.Some?
    requires Process(hook, event, payload).value.value.body.Command?
    requires own + hook.environment == Process(hook, event, payload).value.value.body.env
    ensures payload.builds.Some? && payload.attributes.Some? && payload.project.Some?
    ensures Matches(hook.kind.jobNames, payload.builds.value).Ok?
    ensures var a, p := payload.attributes.value, payload.project.value;
      && a.refName.Some? && a.sha.Some? && a.id.Some?
      && p.id.Some? && p.path.Some? && p.title.Some? && p.url.Some? && ServerFrom(p.url.value).Ok?
      && Lists(own, NamesOf(a.tag.Some?),
               ValuesOf(Matches(hook.kind.jobNames, payload.builds.value).value, a, p, ServerFrom(p.url.value).value))
  {
    AcceptedHas(hook, event, payload);
    var a, p := payload.attributes.value, payload.project.value;
    var matches := Matches(hook.kind.jobNames, payload.builds.value).value;
    var first, last := PipelineEnvironment(matches, a).value, ProjectEnvironment(payload).value;
    assert Process(hook, event, payload).value.value.body.env == first + last + hook.environment;
    assert own == first + last by {
      assert own == (own + hook.environment)[..|own|];
      assert first + last == (first + last + hook.environment)[..|first + last|];
    }
    NamesDiffer(a.tag.Some?);
    NamesNoEquals(a.tag.Some?);
    ListsOne(matches, a, payload);
  }

  lemma ListsOne(matches: seq<Match>, a: Attributes, payload: Payload)
    requires matches != [] && PipelineEnvironment(matches, a).Ok? && ProjectEnvironment(payload).Ok?
    ensures a.refName.Some? && a.sha.Some? && a.id.Some? && payload.project.Some?
    ensures var p := payload.project.value;
      && p.id.Some? && p.path.Some? && p.title.Some? && p.url.Some? && ServerFrom(p.url.value).Ok?
      && var names, values := NamesOf(a.tag.Some?), ValuesOf(matches, a, p, ServerFrom(p.url.value).value);
        var own := PipelineEnvironment(matches, a).value + ProjectEnvironment(payload).value;
        |own| == |names| == |values| && forall i :: 0 <= i < |own| ==> own[i] == names[i] + "=" + values[i]
  {
  }

  /**
   The environment of a command, read as a process reads it. For every accepted event, each variable
   has the member of the payload that the documentation names, whatever the configuration adds; the tag
   is defined exactly if the event has one; and what is configured follows at the end, as it is.
   */
  lemma EnvironmentReads(hook: Config, event: string, payload: Payload) returns (own: seq<string>)
    requires hook.kind.Pipeline? && Accepts(hook, event, payload)
    ensures Process(hook, event, payload).Ok? && Process(hook, event, payload).value.Some?
    ensures Process(hook, event, payload).value.value.body.Command?
    ensures own + hook.environment == Process(hook, event, payload).value.value.body.env
    ensures payload.attributes.Some? && payload.project.Some?
    ensures var a, p := payload.attributes.value, payload.project.value;
      && |own| == (if a.tag.Some? then 11 else 10)
      && a.refName.Some? && GetEnv(own, "CI_COMMIT_REF_NAME") == a.refName
      && a.sha.Some? && GetEnv(own, "CI_COMMIT_SHA") == a.sha
      && GetEnv(own, "CI_COMMIT_TAG") == a.tag
      && a.id.Some? && GetEnv(own, "CI_PIPELINE_ID").Some? && Env.IsDecimal(GetEnv(own, "CI_PIPELINE_ID").value, a.id.value)
      && p.id.Some? && GetEnv(own, "CI_PROJECT_ID") == p.id
      && p.path.Some? && GetEnv(own, "CI_PROJECT_PATH") == p.path
      && p.title.Some? && GetEnv(own, "CI_PROJECT_TITLE") == p.title
      && p.url.Some? && GetEnv(own, "CI_PROJECT_URL") == p.url
      && GetEnv(own, "CI_SERVER_URL").Some? && IsServer(p.url.value, GetEnv(own, "CI_SERVER_URL").value)
    ensures forall name :: GetEnv(own, name).Some? ==>
      GetEnv(Process(hook, event, payload).value.value.body.env, name) == GetEnv(own, name)
  {
    FirstEntries(hook, event, payload);
    AcceptedHas(hook, event, payload);
    var env := Process(hook, event, payload).value.value.body.env;
    var a, p := payload.attributes.value, payload.project.value;
    var matches := Matches(hook.kind.jobNames, payload.builds.value).value;
    own := PipelineEnvironment(matches, a).value + ProjectEnvironment(payload).value;
    OwnEntries(hook, event, payload, own);
    var server := ServerFrom(p.url.value).value;
    ServerIs(p.url.value);
    Env.DecimalIs(a.id.value);
    ReadAll(own, matches, a, p, server);
    forall name | GetEnv(own, name).Some? ensures GetEnv(env, name) == GetEnv(own, name) {
      GetFirst(own, hook.environment, name);
    }
  }

  lemma ReadAll(own: seq<string>, matches: seq<Match>, a: Attributes, p: Project, server: string)
    requires a.refName.Some? && a.sha.Some? && a.id.Some? && p.id.Some? && p.path.Some? && p.title.Some? && p.url.Some?
    requires Lists(own, NamesOf(a.tag.Some?), ValuesOf(matches, a, p, server))
    ensures |own| == if a.tag.Some? then 11 else 10
    ensures GetEnv(own, "CI_COMMIT_REF_NAME") == a.refName && GetEnv(own, "CI_COMMIT_SHA") == a.sha
    ensures GetEnv(own, "CI_PIPELINE_ID") == Some(Env.Decimal(a.id.value)) && GetEnv(own, "CI_COMMIT_TAG") == a.tag
    ensures GetEnv(own, "CI_PROJECT_ID") == p.id && GetEnv(own, "CI_PROJECT_PATH") == p.path
    ensures GetEnv(own, "CI_PROJECT_TITLE") == p.title && GetEnv(own, "CI_PROJECT_URL") == p.url
    ensures GetEnv(own, "CI_SERVER_URL") == Some(server)
  {
    CountEntries(own, a.tag.Some?);
    ReadCommit(own, matches, a, p, server);
    ReadPipeline(own, matches, a, p, server);
    ReadTag(own, matches, a, p, server);
    ReadProject(own, matches, a, p, server);
    ReadUrls(own, matches, a, p, server);
  }

  lemma ReadCommit(own: seq<string>, matches: seq<Match>, a: Attributes, p: Project, server: string)
    requires a.refName.Some? && a.sha.Some? && a.id.Some? && p.id.Some? && p.path.Some? && p.title.Some? && p.url.Some?
    requires Lists(own, NamesOf(a.tag.Some?), ValuesOf(matches, a, p, server))
    ensures GetEnv(own, "CI_COMMIT_REF_NAME") == a.refName && GetEnv(own, "CI_COMMIT_SHA") == a.sha
  {
    ReadOne(own, matches, a, p, server, 2, "CI_COMMIT_REF_NAME", a.refName.value);
    ReadOne(own, matches, a, p, server, 3, "CI_COMMIT_SHA", a.sha.value);
  }

  lemma ReadPipeline(own: seq<string>, matches: seq<Match>, a: Attributes, p: Project, server: string)
    requires a.refName.Some? && a.sha.Some? && a.id.Some? && p.id.Some? && p.path.Some? && p.title.Some? && p.url.Some?
    requires Lists(own, NamesOf(a.tag.Some?), ValuesOf(matches, a, p, server))
    ensures GetEnv(own, "CI_PIPELINE_ID") == Some(Env.Decimal(a.id.value))
  {
    ReadOne(own, matches, a, p, server, 4, "CI_PIPELINE_ID", Env.Decimal(a.id.value));
  }

  lemma CountEntries(own: seq<string>, tag: bool)
    requires |own| == |NamesOf(tag)|
    ensures |own| == if tag then 11 else 10
  {
  }

  lemma ReadProject(own: seq<string>, matches: seq<Match>, a: Attributes, p: Project, server: string)
    requires a.refName.Some? && a.sha.Some? && a.id.Some? && p.id.Some? && p.path.Some? && p.title.Some? && p.url.Some?
    requires Lists(own, NamesOf(a.tag.Some?), ValuesOf(matches, a, p, server))
    ensures GetEnv(own, "CI_PROJECT_ID") == p.id && GetEnv(own, "CI_PROJECT_PATH") == p.path
    ensures GetEnv(own, "CI_PROJECT_TITLE") == p.title
  {
    var n := if a.tag.Some? then 6 else 5;
    ReadOne(own, matches, a, p, server, n, "CI_PROJECT_ID", p.id.value);
    ReadOne(own, matches, a, p, server, n + 1, "CI_PROJECT_PATH", p.path.value);
    ReadOne(own, matches, a, p, server, n + 2, "CI_PROJECT_TITLE", p.title.value);
  }

  lemma ReadUrls(own: seq<string>, matches: seq<Match>, a: Attributes, p: Project, server: string)
    requires a.refName.Some? && a.sha.Some? && a.id.Some? && p.id.Some? && p.path.Some? && p.title.Some? && p.url.Some?
    requires Lists(own, NamesOf(a.tag.Some?), ValuesOf(matches, a, p, server))
    ensures GetEnv(own, "CI_PROJECT_URL") == p.url && GetEnv(own, "CI_SERVER_URL") == Some(server)
  {
    var n := if a.tag.Some? then 6 else 5;
    ReadOne(own, matches, a, p, server, n + 3, "CI_PROJECT_URL", p.url.value);
    ReadOne(own, matches, a, p, server, n + 4, "CI_SERVER_URL", server);
  }

  lemma ReadOne(own: seq<string>, matches: seq<Match>, a: Attributes, p: Project, server: string, k: nat, name: string, value: string)
    requires a.refName.Some? && a.sha.Some? && a.id.Some? && p.id.Some? && p.path.Some? && p.title.Some? && p.url.Some?
    requires Lists(own, NamesOf(a.tag.Some?), ValuesOf(matches, a, p, server))
    requires k < |NamesOf(a.tag.Some?)| && NamesOf(a.tag.Some?)[k] == name && ValuesOf(matches, a, p, server)[k] == value
    ensures GetEnv(own, name) == Some(value)
  {
    GetListed(own, NamesOf(a.tag.Some?), ValuesOf(matches, a, p, server), k);
  }

  lemma ReadTag(own: seq<string>, matches: seq<Match>, a: Attributes, p: Project, server: string)
    requires a.refName.Some? && a.sha.Some? && a.id.Some? && p.id.Some? && p.path.Some? && p.title.Some? && p.url.Some?
    requires Lists(own, NamesOf(a.tag.Some?), ValuesOf(matches, a, p, server))
    ensures GetEnv(own, "CI_COMMIT_TAG") == a.tag
  {
    if a.tag.Some? {
      ReadOne(own, matches, a, p, server, 5, "CI_COMMIT_TAG", a.tag.value);
    } else {
      NamesDiffer(false);
      NamesNoEquals(false);
      GetUnlisted(own, NamesOf(false), ValuesOf(matches, a, p, server), "CI_COMMIT_TAG");
    }
  }

  // ---------------------------------------------------------------- the command itself

  /**
   The job of an accepted pipeline event has the name and the timeout of its hook, and its program and
   arguments are the tokens of the configured command, for whatever string the command was trimmed from.
   */
  lemma CommandOfHook(hook: Config, event: string, payload: Payload, configured: string)
    requires hook.kind.Pipeline? && Accepts(hook, event, payload) && CommandLine.IsTrimmed(configured, hook.command)
    ensures Process(hook, event, payload).Ok? && Process(hook, event, payload).value.Some?
    ensures var job := Process(hook, event, payload).value.value;
      && job.name == hook.name && job.body.Command? && job.body.timeout == hook.timeout
      && [job.body.program] + job.body.args == CommandLine.Tokens(hook.command)
  {
    FirstEntries(hook, event, payload);
    CommandLine.CommandTokens(configured, hook.command);
  }

  /** The job of a debug hook is a function for the event and its text, under the name of the hook. */
  lemma FunctionOfHook(hook: Config, event: string, payload: Payload)
    requires hook.kind.Debug?
    ensures Process(hook, event, payload) == Ok(Some(Job(hook.name, Function(event, payload.text))))
  {
  }
}
