/**
 The intrusive list of child processes: the nodes are the processes themselves, linked by `next`.
 First the list as a value and what handling SIGCHLD does to a list of any length, then the class
 that walks and relinks the nodes.
 */
module ProcessList {
  import opened Kernel
  import opened Scheduler

  /** A linked node as the reaping loop sees it. */
  datatype Link = Link(id: nat, pid: int)

  /** What waitid reports about a zombie, and a handler call. */
  datatype Exit = Exit(pid: int, status: ExitStatus)
  datatype Call = Call(id: nat, status: ExitStatus)

  /** The index of the first node with the pid, or the length of the list. */
  function Find(links: seq<Link>, pid: int): (k: nat)
    ensures k <= |links|
    ensures forall j :: 0 <= j < k ==> links[j].pid != pid
    ensures k < |links| ==> links[k].pid == pid
  {
    if links == [] || links[0].pid == pid then 0 else 1 + Find(links[1..], pid)
  }

  function Drop<T>(s: seq<T>, k: nat): seq<T> {
    if k < |s| then s[..k] + s[k + 1..] else s
  }

  /** The handler calls of onSigchld and the list it leaves, for exits in the order of waitid. */
  function Calls(links: seq<Link>, exits: seq<Exit>): seq<Call>
    decreases |exits|
  {
    if exits == [] then []
    else
      var k := Find(links, exits[0].pid);
      CallFor(links, exits[0]) + Calls(Drop(links, k), exits[1..])
  }

  function Left(links: seq<Link>, exits: seq<Exit>): seq<Link>
    decreases |exits|
  {
    if exits == [] then links else Left(Drop(links, Find(links, exits[0].pid)), exits[1..])
  }

  /** The child with the pid is among the exits. */
  predicate HasExited(exits: seq<Exit>, pid: int) {
    exists i :: 0 <= i < |exits| && exits[i].pid == pid
  }

  /** The nodes whose pid is not among the exits, in their order. */
  function Survivors(links: seq<Link>, exits: seq<Exit>): seq<Link> {
    if links == [] then []
    else (if HasExited(exits, links[0].pid) then [] else [links[0]]) + Survivors(links[1..], exits)
  }

  ghost predicate DistinctPids(links: seq<Link>) {
    forall i, j :: 0 <= i < j < |links| ==> links[i].pid != links[j].pid
  }

  ghost predicate DistinctExits(exits: seq<Exit>) {
    forall i, j :: 0 <= i < j < |exits| ==> exits[i].pid != exits[j].pid
  }

  // ---------------------------------------------------------------- lists of any length

  lemma DropKeepsDistinct(links: seq<Link>, k: nat)
    requires DistinctPids(links)
    ensures DistinctPids(Drop(links, k))
    ensures forall l :: l in Drop(links, k) ==> l in links
    ensures k < |links| ==> forall l :: l in links ==> l == links[k] || l in Drop(links, k)
  {
    if k < |links| {
      forall l | l in links && l != links[k]
        ensures l in Drop(links, k)
      {
        var i :| 0 <= i < |links| && links[i] == l;
        assert l == if i < k then Drop(links, k)[i] else Drop(links, k)[i - 1];
      }
    }
  }

  lemma {:induction false} SurvivorsSkip(links: seq<Link>, exits: seq<Exit>)
    requires DistinctPids(links) && exits != []
    ensures Survivors(links, exits) == Survivors(Drop(links, Find(links, exits[0].pid)), exits[1..])
    decreases |links|
  {
    if links == [] {
    } else {
      var k := Find(links, exits[0].pid);
      var rest := links[1..];
      if k == 0 {
        assert Drop(links, 0) == rest;
        assert HasExited(exits, links[0].pid);
        SurvivorsTail(rest, exits);
      } else {
        SurvivorsSkip(rest, exits);
        assert Drop(links, k)[1..] == Drop(rest, k - 1);
        assert Drop(links, k)[0] == links[0];
        ExitsTail(exits, links[0].pid);
      }
    }
  }

  lemma ExitsTail(exits: seq<Exit>, pid: int)
    requires exits != [] && exits[0].pid != pid
    ensures HasExited(exits, pid) == HasExited(exits[1..], pid)
  {
    if i :| 0 <= i < |exits| && exits[i].pid == pid {
      assert exits[1..][i - 1].pid == pid;
    }
    if i :| 0 <= i < |exits[1..]| && exits[1..][i].pid == pid {
      assert exits[i + 1].pid == pid;
    }
  }

  lemma {:induction false} SurvivorsTail(links: seq<Link>, exits: seq<Exit>)
    requires exits != [] && forall l :: l in links ==> l.pid != exits[0].pid
    ensures Survivors(links, exits) == Survivors(links, exits[1..])
  {
    if links == [] {
    } else {
      assert links[0] in links;
      ExitsTail(exits, links[0].pid);
      SurvivorsTail(links[1..], exits);
    }
  }

  lemma {:induction false} SurvivorsOfNothing(links: seq<Link>)
    ensures Survivors(links, []) == links
  {
    if links == [] {
    } else {
      SurvivorsOfNothing(links[1..]);
    }
  }

  /** Whatever order waitid reports the exits in, the nodes that stay linked keep their order. */
  lemma {:induction false} LeftInOrder(links: seq<Link>, exits: seq<Exit>)
    requires DistinctPids(links)
    ensures Left(links, exits) == Survivors(links, exits)
    decreases |exits|
  {
    if exits == [] {
      SurvivorsOfNothing(links);
    } else {
      SurvivorsSkip(links, exits);
      DropKeepsDistinct(links, Find(links, exits[0].pid));
      LeftInOrder(Drop(links, Find(links, exits[0].pid)), exits[1..]);
    }
  }

  /** The handler call for one exit, if the child is linked. */
  function CallFor(links: seq<Link>, exit: Exit): (r: seq<Call>)
    ensures |r| <= 1
  {
    var k := Find(links, exit.pid);
    if k < |links| then [Call(links[k].id, exit.status)] else []
  }

  /** One more exit at the end comes to one more round on what was left. */
  lemma {:induction false} OneMoreExit(links: seq<Link>, exits: seq<Exit>, exit: Exit)
    ensures var left := Left(links, exits);
      && Left(links, exits + [exit]) == Drop(left, Find(left, exit.pid))
      && Calls(links, exits + [exit]) == Calls(links, exits) + CallFor(left, exit)
    decreases |exits|
  {
    if exits == [] {
      assert [] + [exit] == [exit];
      assert [exit][1..] == [];
      assert CallFor(links, exit) + [] == CallFor(links, exit);
    } else {
      assert (exits + [exit])[1..] == exits[1..] + [exit];
      OneMoreExit(Drop(links, Find(links, exits[0].pid)), exits[1..], exit);
    }
  }

  /** How often the handler of a node is called. */
  function Count(calls: seq<Call>, id: nat): nat {
    if calls == [] then 0 else (if calls[0].id == id then 1 else 0) + Count(calls[1..], id)
  }

  ghost predicate DistinctIds(links: seq<Link>) {
    forall i, j :: 0 <= i < j < |links| ==> links[i].id != links[j].id
  }

  lemma {:induction false} CountCons(c: seq<Call>, rest: seq<Call>, id: nat)
    requires |c| <= 1
    ensures Count(c + rest, id) == Count(c, id) + Count(rest, id)
  {
    if c == [] {
      assert c + rest == rest;
    } else {
      assert (c + rest)[1..] == rest;
      assert c[1..] == [];
    }
  }

  lemma {:induction false} NoCallsOutside(links: seq<Link>, exits: seq<Exit>, id: nat)
    requires forall l :: l in links ==> l.id != id
    ensures Count(Calls(links, exits), id) == 0
    decreases |exits|
  {
    if exits == [] {
    } else {
      var k := Find(links, exits[0].pid);
      NoCallsOutside(Drop(links, k), exits[1..], id);
      CountCons(CallFor(links, exits[0]), Calls(Drop(links, k), exits[1..]), id);
    }
  }

  lemma DropKeepsIds(links: seq<Link>, k: nat, l: Link)
    requires DistinctIds(links) && k < |links| && l in links
    ensures DistinctIds(Drop(links, k))
    ensures l != links[k] ==> l.id != links[k].id
    ensures l == links[k] ==> forall m :: m in Drop(links, k) ==> m.id != l.id
  {
  }

  /**
   Each linked process whose child exited has its handler called exactly once; every other linked
   process not at all.
   */
  lemma {:induction false} CalledOnce(links: seq<Link>, exits: seq<Exit>, l: Link)
    requires DistinctPids(links) && DistinctIds(links) && l in links
    ensures Count(Calls(links, exits), l.id) == if HasExited(exits, l.pid) then 1 else 0
    decreases |exits|
  {
    if exits == [] {
    } else {
      var k := Find(links, exits[0].pid);
      var rest := Drop(links, k);
      CountCons(CallFor(links, exits[0]), Calls(rest, exits[1..]), l.id);
      DropKeepsDistinct(links, k);
      if k < |links| {
        DropKeepsIds(links, k, l);
      }
      if l.pid == exits[0].pid {
        NoCallsOutside(rest, exits[1..], l.id);
      } else {
        ExitsTail(exits, l.pid);
        CalledOnce(rest, exits[1..], l);
      }
    }
  }

  /** The call carries the status of that child, not of another one. */
  lemma {:induction false} CalledWithOwnStatus(links: seq<Link>, exits: seq<Exit>, l: Link, i: nat)
    requires DistinctPids(links) && DistinctExits(exits) && l in links
    requires i < |exits| && exits[i].pid == l.pid
    ensures Call(l.id, exits[i].status) in Calls(links, exits)
    decreases |exits|
  {
    var k := Find(links, exits[0].pid);
    if i == 0 {
    } else {
      DropKeepsDistinct(links, k);
      CalledWithOwnStatus(Drop(links, k), exits[1..], l, i - 1);
    }
  }

  // ---------------------------------------------------------------- the nodes

  /** process::impl. handler is true while it holds the completion handler of the action list. */
  class ProcessImpl {
    const id: nat
    var pid: int
    var handler: bool
    var next: ProcessImpl?
    ghost var alive: bool

    constructor (id: nat)
      ensures this.id == id && pid == NO_PID && !handler && alive
    {
      this.id := id;
      pid := NO_PID;
      handler := false;
      next := null;
      alive := true;
    }

    /** The destructor. It terminates the child, and waits for it, if there is still one to account for. */
    ghost method Destroy() returns (terminates: bool)
      requires alive
      modifies this`alive
      ensures !alive && terminates == (pid != NO_PID)
    {
      alive := false;
      terminates := pid != NO_PID;
    }
  }

  class List {
    var head: ProcessImpl?
    ghost var nodes: seq<ProcessImpl>

    /** The next pointers form a list without a cycle, through nodes that still exist. */
    ghost predicate Valid()
      reads this, nodes`next, nodes`alive
    {
      && (nodes == [] ==> head == null)
      && (nodes != [] ==> head == nodes[0] && nodes[|nodes| - 1].next == null)
      && (forall i {:trigger nodes[i].next} :: 0 <= i < |nodes| - 1 ==> nodes[i].next == nodes[i + 1])
      && (forall i :: 0 <= i < |nodes| ==> nodes[i].alive)
      && (forall i, j :: 0 <= i < j < |nodes| ==> nodes[i] != nodes[j])
    }

    ghost function Links(): (r: seq<Link>)
      reads this, nodes
      ensures |r| == |nodes|
      ensures forall i :: 0 <= i < |r| ==> r[i] == Link(nodes[i].id, nodes[i].pid)
    {
      seq(|nodes|, i requires 0 <= i < |nodes| reads this, nodes => Link(nodes[i].id, nodes[i].pid))
    }

    constructor ()
      ensures Valid() && nodes == []
    {
      head := null;
      nodes := [];
    }

    method Add(process: ProcessImpl)
      requires Valid() && process.alive && process !in nodes
      modifies this, process`next
      ensures Valid() && nodes == [process] + old(nodes)
    {
      process.next := head;
      head := process;
      nodes := [process] + nodes;
    }

    /** Takes node k out: iter points to head if prev is null, and to prev.next otherwise. */
    method Unlink(prev: ProcessImpl?, process: ProcessImpl, ghost k: nat)
      requires Valid() && k < |nodes| && process == nodes[k]
      requires prev == if k == 0 then null else nodes[k - 1]
      modifies this, nodes`next
      ensures Valid() && nodes == Drop(old(nodes), k) && process !in nodes
    {
      if prev == null {
        head := process.next;
      } else {
        prev.next := process.next;
      }
      nodes := nodes[..k] + nodes[k + 1..];
    }

    /** list::remove. Its assert is the precondition that the process is linked. */
    method Remove(process: ProcessImpl)
      requires Valid() && process in nodes
      modifies this, nodes`next
      ensures Valid()
      ensures exists k :: 0 <= k < |old(nodes)| && old(nodes)[k] == process && nodes == Drop(old(nodes), k)
    {
      var prev, iter := null, head;
      ghost var k := 0;
      while iter != process
        invariant k < |nodes| && process in nodes[k..]
        invariant iter == nodes[k] && prev == (if k == 0 then null else nodes[k - 1])
        decreases |nodes| - k
      {
        prev, iter := iter, iter.next;
        k := k + 1;
      }
      Unlink(prev, process, k);
    }

    /** The inner loop of onSigchld: walks to the process with the pid, or to the end. */
    method Seek(pid: int) returns (prev: ProcessImpl?, process: ProcessImpl?, ghost k: nat)
      requires Valid()
      ensures k == Find(Links(), pid)
      ensures process == if Find(Links(), pid) < |nodes| then nodes[Find(Links(), pid)] else null
      ensures process != null ==> prev == if k == 0 then null else nodes[k - 1]
    {
      prev, process, k := null, head, 0;
      while process != null && process.pid != pid
        invariant k <= |nodes| && process == (if k < |nodes| then nodes[k] else null)
        invariant prev == (if k == 0 then null else nodes[k - 1])
        invariant forall j :: 0 <= j < k ==> Links()[j].pid != pid
        decreases |nodes| - k
      {
        prev, process := process, process.next;
        k := k + 1;
      }
    }

    /** Clears the pid and the handler of a process that is not linked any more. */
    method Clear(process: ProcessImpl) returns (handler: bool)
      requires Valid() && process !in nodes
      modifies process`pid, process`handler
      ensures Valid() && process.pid == NO_PID && !process.handler && handler == old(process.handler)
    {
      process.pid := NO_PID;
      handler, process.handler := process.handler, false;
    }

    /** Unlinks the process with the pid, if there is one, and clears its pid and its handler. */
    method Detach(pid: int) returns (process: ProcessImpl?, handler: bool)
      requires Valid()
      modifies this, nodes`next, nodes`pid, nodes`handler
      ensures Valid()
      ensures var k := Find(old(Links()), pid);
        && nodes == Drop(old(nodes), k)
        && (process == if k < |old(nodes)| then old(nodes)[k] else null)
      ensures process != null ==> process.pid == NO_PID && !process.handler && handler == old(process.handler)
      ensures forall n :: n in old(nodes) && n != process ==> n.pid == old(n.pid) && n.handler == old(n.handler)
    {
      var prev;
      ghost var k;
      prev, process, k := Seek(pid);
      handler := false;
      if process != null {
        Unlink(prev, process, k);
        handler := Clear(process);
      }
    }

    /** Taking node k out of the list takes link k out of its links, if no other node changes its pid. */
    twostate lemma LinksDropped(k: nat)
      requires nodes == Drop(old(nodes), k)
      requires forall i :: 0 <= i < |old(nodes)| && i != k ==> old(nodes)[i].pid == old(nodes[i].pid)
      ensures Links() == Drop(old(Links()), k)
    {
      if k < |old(nodes)| {
        forall i | 0 <= i < |nodes| ensures Links()[i] == Drop(old(Links()), k)[i] {
          if i < k {
            assert nodes[i] == old(nodes)[i];
          } else {
            assert nodes[i] == old(nodes)[i + 1];
          }
        }
      } else {
        forall i | 0 <= i < |nodes| ensures Links()[i] == old(Links())[i] {
          assert nodes[i] == old(nodes)[i];
        }
      }
    }

    /** Every linked process has a handler, and is in repr. */
    ghost predicate Armed(repr: set<ProcessImpl>)
      reads this, nodes
    {
      forall n :: n in nodes ==> n.handler && n in repr
    }

    /** One round of onSigchld over the nodes: the process of the child is unlinked, and its handler is called. */
    method ReapNext(exit: Exit, ghost repr: set<ProcessImpl>) returns (calls: seq<Call>)
      requires Valid() && Armed(repr)
      modifies this, repr
      ensures Valid() && Armed(repr)
      ensures Links() == Drop(old(Links()), Find(old(Links()), exit.pid)) && calls == CallFor(old(Links()), exit)
    {
      ghost var k := Find(Links(), exit.pid);
      var process, handler := Detach(exit.pid);
      LinksDropped(k);
      calls := [];
      if process != null {
        assert handler;
        calls := [Call(process.id, exit.status)];
      }
    }

    /** The list that had links in the beginning after the exits, with the handler calls so far. */
    ghost predicate Reaped(links: seq<Link>, exits: seq<Exit>, calls: seq<Call>)
      reads this, nodes
    {
      Links() == Left(links, exits) && calls == Calls(links, exits)
    }

    /** The same, after the exits that were reaped already. */
    method ReapFurther(exit: Exit, ghost links: seq<Link>, ghost done: seq<Exit>, calls: seq<Call>, ghost repr: set<ProcessImpl>)
      returns (more: seq<Call>)
      requires Valid() && Armed(repr) && Reaped(links, done, calls)
      modifies this, repr
      ensures Valid() && Armed(repr) && Reaped(links, done + [exit], more)
    {
      OneMoreExit(links, done, exit);
      var last := ReapNext(exit, repr);
      more := calls + last;
    }

    /** onSigchld over the nodes, for the exits that waitid reports one after the other. */
    method ReapAll(exits: seq<Exit>, ghost repr: set<ProcessImpl>) returns (calls: seq<Call>)
      requires Valid() && Armed(repr)
      modifies this, repr
      ensures Valid() && Armed(repr)
      ensures calls == Calls(old(Links()), exits)
      ensures Links() == Left(old(Links()), exits)
    {
      calls := [];
      ghost var links := Links();
      for i := 0 to |exits|
        invariant Valid() && Armed(repr)
        invariant Reaped(links, exits[..i], calls)
      {
        assert exits[..i + 1] == exits[..i] + [exits[i]];
        calls := ReapFurther(exits[i], links, exits[..i], calls, repr);
      }
      assert exits[..|exits|] == exits;
    }
  }
}
