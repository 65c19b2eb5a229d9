/**
 The reaping loop is described twice: Scheduler walks ids that refer to queued items and runs the
 whole completion handler, ProcessList follows nodes that know their pid and records the calls. Here
 is that they are the same.
 */
module Reaping {
  import opened Wrappers
  import opened Kernel
  import opened Scheduler
  import opened SchedulerInvariant
  import opened ProcessList

  /** Every linked id is that of a queued item. */
  ghost predicate Known(queue: seq<Item>, links: seq<nat>) {
    forall i :: 0 <= i < |links| ==> Lookup(queue, links[i]).Some?
  }

  /** The linked items as the nodes of ProcessList. */
  ghost function LinksIn(queue: seq<Item>, links: seq<nat>): (r: seq<Link>)
    requires Known(queue, links)
    ensures |r| == |links|
    ensures forall i :: 0 <= i < |r| ==> r[i] == Link(links[i], queue[Lookup(queue, links[i]).value].pid)
  {
    seq(|links|, i requires 0 <= i < |links| => Link(links[i], queue[Lookup(queue, links[i]).value].pid))
  }

  /** Both walks stop at the same node, or at the end. */
  lemma {:induction false} FindLinkIsFind(queue: seq<Item>, links: seq<nat>, pid: int)
    requires Known(queue, links)
    ensures var k := Find(LinksIn(queue, links), pid);
      FindLink(queue, links, pid) == Ok(if k < |links| then Lookup(queue, links[k]) else None)
  {
    if links == [] {
    } else {
      FindLinkIsFind(queue, links[1..], pid);
      assert LinksIn(queue, links)[1..] == LinksIn(queue, links[1..]);
    }
  }

  lemma {:induction false} WithoutSplit(front: seq<nat>, id: nat, back: seq<nat>)
    requires id !in front
    ensures Without(front + [id] + back, id) == front + back
  {
    if front == [] {
      assert ([] + [id] + back)[1..] == back == [] + back;
    } else {
      WithoutSplit(front[1..], id, back);
      assert (front + [id] + back)[1..] == front[1..] + [id] + back;
      assert [front[0]] + (front[1..] + back) == front + back;
    }
  }

  /** Both ways of unlinking take the same node out: id, which stands between front and back. */
  lemma WithoutIsDrop(front: seq<nat>, id: nat, back: seq<nat>)
    requires id !in front
    ensures Without(front + [id] + back, id) == Drop(front + [id] + back, |front|)
  {
    var links := front + [id] + back;
    WithoutSplit(front, id, back);
    assert links[..|front|] == front && links[|front| + 1..] == back;
  }

  /** What waitid reports about the zombies. */
  ghost function ExitsOf(os: Os, order: seq<int>): (r: seq<Exit>)
    requires forall i :: 0 <= i < |order| ==> order[i] in os.zombies && os.zombies[order[i]] in os.fate
    ensures |r| == |order|
    ensures forall i :: 0 <= i < |r| ==> r[i] == Exit(order[i], os.fate[os.zombies[order[i]]])
  {
    seq(|order|, i requires 0 <= i < |order| => Exit(order[i], os.fate[os.zombies[order[i]]]))
  }

  /** The history entries of handler calls. */
  ghost function EndsOf(calls: seq<Call>): seq<Entry> {
    if calls == [] then [] else [Ended(calls[0].id, Completed(calls[0].status))] + EndsOf(calls[1..])
  }

  lemma {:induction false} NoLinks(exits: seq<Exit>)
    ensures Calls([], exits) == [] && Left([], exits) == []
  {
    if exits == [] {
    } else {
      NoLinks(exits[1..]);
    }
  }

  /** Exit i is that of the one linked process. */
  ghost predicate Takes(link: Link, exits: seq<Exit>, i: nat)
    requires i < |exits|
  {
    exits[i].pid == link.pid && Calls([link], exits) == [Call(link.id, exits[i].status)] && Left([link], exits) == []
  }

  /** Reaping a list of one. */
  lemma {:induction false} OneLink(link: Link, exits: seq<Exit>)
    ensures !HasExited(exits, link.pid) ==> Calls([link], exits) == [] && Left([link], exits) == [link]
    ensures HasExited(exits, link.pid) ==> exists i :: 0 <= i < |exits| && Takes(link, exits, i)
  {
    if exits == [] {
    } else if exits[0].pid == link.pid {
      NoLinks(exits[1..]);
      assert Drop([link], 0) == [];
      assert CallFor([link], exits[0]) + [] == [Call(link.id, exits[0].status)];
      assert Takes(link, exits, 0);
    } else {
      OneLink(link, exits[1..]);
      assert [link][1..] == [];
      ExitsTail(exits, link.pid);
      if HasExited(exits[1..], link.pid) {
        var i :| 0 <= i < |exits[1..]| && Takes(link, exits[1..], i);
        assert Takes(link, exits, i + 1);
      }
    }
  }

  /** The exits in a given order, with what the theorem needs to know of them. */
  lemma ReportedExits(s: State, order: seq<int>)
    requires Inv(s) && Enumerates(order, s.os.zombies.Keys)
    ensures forall i :: 0 <= i < |order| ==> order[i] in s.os.zombies && s.os.zombies[order[i]] in s.os.fate
  {
    forall i | 0 <= i < |order| ensures order[i] in s.os.zombies && s.os.zombies[order[i]] in s.os.fate {
      Enumerated(order, s.os.zombies.Keys, i);
      ZombieHasFate(s.os, Begun(s), order[i]);
    }
  }

  lemma ZombieHasFate(os: Os, begun: int, pid: int)
    requires OsInv(os, begun) && pid in os.zombies
    ensures os.zombies[pid] in os.fate
  {
  }

  lemma Enumerated(order: seq<int>, pids: set<int>, i: nat)
    requires Enumerates(order, pids) && i < |order|
    ensures order[i] in pids
  {
    assert order[i] in order;
  }

  /** What the loop over the nodes does in a state that satisfies the invariant. */
  lemma CallsOfState(s: State, order: seq<int>)
    requires Inv(s) && Enumerates(order, s.os.zombies.Keys) && Known(s.queue, s.links)
    requires forall i :: 0 <= i < |order| ==> order[i] in s.os.zombies && s.os.zombies[order[i]] in s.os.fate
    ensures HeadExited(s) ==> s.queue[0].id in s.os.fate
    ensures var links, exits := LinksIn(s.queue, s.links), ExitsOf(s.os, order);
      if HeadExited(s) then Calls(links, exits) == [Call(s.queue[0].id, s.os.fate[s.queue[0].id])] && Left(links, exits) == []
      else Calls(links, exits) == [] && Left(links, exits) == links
  {
    HeadIsKnown(s);
    if Running(s) {
      OneLink(Link(s.queue[0].id, s.queue[0].pid), ExitsOf(s.os, order));
      ExitedIff(s, order);
    } else {
      NoLinks(ExitsOf(s.os, order));
    }
  }

  /** What the state machine does to the list and the history. */
  lemma LogOfState(s: State)
    requires Inv(s) && Good(AllReaped(s)) && (HeadExited(s) ==> s.queue[0].id in s.os.fate)
    ensures Known(AllReaped(s).value.queue, AllReaped(s).value.links) && Known(s.queue, s.links)
    ensures var t := AllReaped(s).value;
      if HeadExited(s) then
        LinksIn(t.queue, t.links) == [] && t.log == s.log + [Ended(s.queue[0].id, Completed(s.os.fate[s.queue[0].id]))]
      else LinksIn(t.queue, t.links) == LinksIn(s.queue, s.links) && t.log == s.log
  {
    HeadIsKnown(s);
    HeadIsKnown(AllReaped(s).value);
  }

  /**
   Handling SIGCHLD in the state machine makes exactly the handler calls, and leaves exactly the
   list, that the reaping loop over the nodes makes and leaves.
   */
  lemma SigchldIsCalls(s: State, order: seq<int>)
    requires Inv(s) && Enumerates(order, s.os.zombies.Keys)
    ensures Sigchld(s, order).Ok? && Known(s.queue, s.links) && Known(Sigchld(s, order).value.queue, Sigchld(s, order).value.links)
    ensures forall i :: 0 <= i < |order| ==> order[i] in s.os.zombies && s.os.zombies[order[i]] in s.os.fate
    ensures var t, links, exits := Sigchld(s, order).value, LinksIn(s.queue, s.links), ExitsOf(s.os, order);
      && LinksIn(t.queue, t.links) == Left(links, exits)
      && t.log == s.log + EndsOf(Calls(links, exits))
  {
    ReportedExits(s, order);
    SigchldKeeps(s, order);
    HeadIsKnown(s);
    CallsOfState(s, order);
    LogOfState(s);
    OneEnd(if HeadExited(s) then Call(s.queue[0].id, s.os.fate[s.queue[0].id]) else Call(0, Exited(0)));
    assert s.log + [] == s.log;
  }

  lemma OneEnd(call: Call)
    ensures EndsOf([call]) == [Ended(call.id, Completed(call.status))]
  {
    assert [call][1..] == [];
  }

  lemma HeadIsKnown(s: State)
    requires Inv(s)
    ensures Known(s.queue, s.links)
    ensures LinksIn(s.queue, s.links) == if Running(s) then [Link(s.queue[0].id, s.queue[0].pid)] else []
  {
    if Running(s) {
      WalkFindsHead(s.queue, s.queue[0].pid);
      FirstIsHead(s.queue);
    }
  }

  lemma FirstIsHead(queue: seq<Item>)
    requires queue != [] && forall i :: 0 < i < |queue| ==> queue[i].id != queue[0].id
    ensures Lookup(queue, queue[0].id) == Some(0)
  {
  }

  lemma ExitedIff(s: State, order: seq<int>)
    requires Inv(s) && Enumerates(order, s.os.zombies.Keys) && Running(s)
    requires forall i :: 0 <= i < |order| ==> order[i] in s.os.zombies && s.os.zombies[order[i]] in s.os.fate
    ensures var exits := ExitsOf(s.os, order);
      && (HasExited(exits, s.queue[0].pid) <==> HeadExited(s))
      && (HeadExited(s) ==> s.queue[0].id in s.os.fate)
      && (forall i :: 0 <= i < |exits| && exits[i].pid == s.queue[0].pid ==> exits[i].status == s.os.fate[s.queue[0].id])
  {
    var exits := ExitsOf(s.os, order);
    if HeadExited(s) {
      var i :| 0 <= i < |order| && order[i] == s.queue[0].pid;
      assert exits[i].pid == s.queue[0].pid;
    }
    if HasExited(exits, s.queue[0].pid) {
      var i :| 0 <= i < |exits| && exits[i].pid == s.queue[0].pid;
      assert order[i] in s.os.zombies.Keys;
    }
  }
}
