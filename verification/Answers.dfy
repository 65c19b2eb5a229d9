/**
 Every answer a request can get, and exactly when: before its body is read, and after its handler ran.
 */
module Answers {
  import opened Wrappers
  import opened Hooks
  import opened Routing
  import Requests
  import Setup
  import Program
  import HookChain

  // ---------------------------------------------------------------- before the body

  /** Some hook of the chain has the token and no other address. */
  ghost predicate Admitted(chain: seq<Config>, token: string, peer: string) {
    exists h :: h in chain && h.token == token && (h.address == "" || h.address == peer)
  }

  /**
   What the handler of a chain does with a request, for every request: it throws exactly if the peer is
   unknown, and every refusal has its own code and its own reason, checked in this order.
   */
  lemma DecisionIff(chain: seq<Config>, request: Request)
    requires chain != []
    ensures var d, known := Decide(chain, request), request.peer.Some?;
      var own := request.path == chain[0].uriPath;
      && (d == Throw <==> !known)
      && (d == Respond(405) <==> known && !request.post)
      && (d == Respond(404) <==> known && request.post && !own)
      && (d == Respond(401) <==> known && request.post && own && request.token == "")
      && (d == Respond(403) <==>
            known && request.post && own && request.token != "" && !Admitted(chain, request.token, request.peer.value))
      && (d == Accept <==>
            known && request.post && own && request.token != "" && Admitted(chain, request.token, request.peer.value))
      && (d.Respond? ==> 400 <= d.code < 500)
  {
    if request.peer.Some? {
      AdmittedIff(chain, request.token, request.peer.value);
    }
  }

  lemma AdmittedIff(chain: seq<Config>, token: string, peer: string)
    ensures EligibleHooks(chain, token, peer) == [] <==> !Admitted(chain, token, peer)
  {
    var hooks := EligibleHooks(chain, token, peer);
    EligibleIff(chain, token, peer);
    if hooks != [] {
      assert hooks[0] in hooks;
    }
    if h :| h in chain && h.token == token && (h.address == "" || h.address == peer) {
      assert h in hooks;
    }
  }

  /** The path is covered by a registered one. */
  ghost predicate IsCovered(site: Setup.Site, path: string) {
    path != "" && path[0] == '/' && exists p :: p in site.handlers && Covers(p, path)
  }

  /** Without a handler: an unknown method is answered with 405 first, then an uncovered path with 404. */
  lemma RefusedUnrouted(reply: Program.Reply, site: Setup.Site, hooks: seq<HookChain.Hook>, limit: nat,
                        httpMethod: Requests.Method, request: Request)
    requires forall p :: p in site.handlers ==> p != "" && p[0] == '/'
    requires Program.Replies(reply, site, hooks, limit, httpMethod, request)
    ensures httpMethod.Other? ==> reply == Program.Answered(405)
    ensures !httpMethod.Other? && !IsCovered(site, request.path) ==> reply == Program.Answered(404)
    ensures !httpMethod.Other? && IsCovered(site, request.path) ==> Setup.Route(site, request.path).Some?
  {
    if request.path != "" && request.path[0] == '/' {
      LookupMostSpecific(site.handlers.Keys, request.path);
    }
  }

  // ---------------------------------------------------------------- after the body

  /** All that a pipeline hook reads is there, but the server cannot be taken from the URL of the project. */
  ghost predicate OnlyNoServer(hook: Config, event: string, payload: Payload) {
    && hook.kind.Pipeline? && event == "Pipeline Hook" && hook.command != ""
    && payload.attributes.Some? && payload.attributes.value.status.Some?
    && StatusAdmitted(hook, payload.attributes.value.status.value)
    && payload.builds.Some? && !AnyIncomplete(hook.kind.jobNames, payload.builds.value)
    && AnyWanted(hook.kind.jobNames, payload.builds.value)
    && payload.attributes.value.refName.Some? && payload.attributes.value.sha.Some? && payload.attributes.value.id.Some?
    && payload.project.Some? && payload.project.value.id.Some? && payload.project.value.path.Some?
    && payload.project.value.title.Some? && payload.project.value.url.Some?
    && !HasServer(payload.project.value.url.value)
  }

  /** That is the only error which is not the fault of the JSON. */
  lemma InternalIff(hook: Config, event: string, payload: Payload)
    ensures Process(hook, event, payload) == Err(Internal) <==> OnlyNoServer(hook, event, payload)
    ensures OnlyNoServer(hook, event, payload) ==> Throws(hook, event, payload)
  {
    ProcessIff(hook, event, payload);
    if hook.kind.Pipeline? && payload.builds.Some? {
      MatchesErrIff(hook.kind.jobNames, payload.builds.value);
      HookChainErr(hook.kind.jobNames, payload.builds.value);
      if Matches(hook.kind.jobNames, payload.builds.value).Ok? {
        NoMatchesIff(hook.kind.jobNames, payload.builds.value);
      }
    }
    if payload.project.Some? && payload.project.value.url.Some? {
      ServerIff(payload.project.value.url.value);
      ServerErr(payload.project.value.url.value);
    }
  }

  lemma HookChainErr(jobNames: set<string>, builds: seq<Build>)
    ensures Matches(jobNames, builds).Err? ==> Matches(jobNames, builds) == Err(BadRequest)
  {
    if Matches(jobNames, builds).Err? {
      HookChain.MatchesErr(jobNames, builds);
    }
  }

  lemma ServerErr(url: string)
    ensures ServerFrom(url).Err? ==> ServerFrom(url) == Err(Internal)
  {
  }

  /** The hook at position i is the first that throws. */
  ghost predicate FirstThrows(hooks: seq<Config>, i: nat, event: string, payload: Payload) {
    i < |hooks| && Throws(hooks[i], event, payload) && forall k :: 0 <= k < i ==> !Throws(hooks[k], event, payload)
  }

  lemma {:induction false} FirstThrower(hooks: seq<Config>, i: nat, event: string, payload: Payload)
    requires FirstThrows(hooks, i, event, payload)
    ensures ProcessAll(hooks, event, payload).error ==
            Some(if OnlyNoServer(hooks[i], event, payload) then Internal else BadRequest)
  {
    ProcessIff(hooks[0], event, payload);
    if i == 0 {
      InternalIff(hooks[0], event, payload);
      var r := Process(hooks[0], event, payload);
      assert r.error == BadRequest || r.error == Internal;
    } else {
      assert hooks[1..][i - 1] == hooks[i];
      assert forall k :: 0 <= k < i - 1 ==> hooks[1..][k] == hooks[k + 1];
      FirstThrower(hooks[1..], i - 1, event, payload);
    }
  }

  /**
   The answer to a complete body, for every body. No JSON, or a project without a URL: 400, and nothing
   is scheduled. Otherwise the first eligible hook that throws decides between 400 and 500; and if none
   throws, it is 202 if some eligible hook accepts the event, and 204 if none does.
   */
  lemma AnswerIff(chain: seq<Config>, token: string, peer: string, event: string, body: Option<Payload>)
    ensures var walk := HandleBody(chain, token, peer, event, body);
      var hooks := EligibleHooks(chain, token, peer);
      if body.None? || (body.value.project.Some? && body.value.project.value.url.None?) then
        ResponseTo(walk) == 400 && walk.jobs == []
      else
        && (forall i: nat :: FirstThrows(hooks, i, event, body.value) ==>
              ResponseTo(walk) == if OnlyNoServer(hooks[i], event, body.value) then 500 else 400)
        && ((forall h :: h in hooks ==> !Throws(h, event, body.value)) ==>
              ResponseTo(walk) == if exists h :: h in hooks && Accepts(h, event, body.value) then 202 else 204)
  {
    var hooks := EligibleHooks(chain, token, peer);
    if body.Some? && !(body.value.project.Some? && body.value.project.value.url.None?) {
      forall i: nat | FirstThrows(hooks, i, event, body.value)
        ensures ResponseTo(HandleBody(chain, token, peer, event, body)) ==
                if OnlyNoServer(hooks[i], event, body.value) then 500 else 400
      {
        FirstThrower(hooks, i, event, body.value);
      }
      if forall h :: h in hooks ==> !Throws(h, event, body.value) {
        NoneThrows(hooks, event, body.value);
      }
    }
  }

  lemma NoneThrows(hooks: seq<Config>, event: string, payload: Payload)
    requires forall h :: h in hooks ==> !Throws(h, event, payload)
    ensures ProcessAll(hooks, event, payload).error == None
    ensures ProcessAll(hooks, event, payload).jobs != [] <==> exists h :: h in hooks && Accepts(h, event, payload)
  {
    WalkError(hooks, event, payload);
    WalkJobs(hooks, event, payload);
    assert forall i :: 0 <= i < |hooks| ==> hooks[i] in hooks;
    if h :| h in hooks && Accepts(h, event, payload) {
      var i :| 0 <= i < |hooks| && hooks[i] == h;
      assert AcceptsAt(hooks, i, event, payload);
    }
  }
}
