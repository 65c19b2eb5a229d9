/**
 The action list and the SIGCHLD handling as they are in the program: objects that are updated in
 place. Every callback is proved to do what its function in Scheduler does, so what SchedulerRuns
 proves about runs holds for these objects; that also discharges every assert of the callbacks.
 */
module ActionList {
  import opened Wrappers
  import opened Kernel
  import opened Scheduler
  import opened SchedulerInvariant
  import opened SchedulerRuns
  import opened ProcessList

  /** The operating system and the clock, as far as the callbacks can see or change them. */
  class System {
    var os: Os
    var now: real

    constructor (now: real)
      ensures os == NO_CHILDREN && this.now == now
    {
      os := NO_CHILDREN;
      this.now := now;
    }

    /** fork in the parent: any pid that no unreaped child has. */
    method Fork(tag: nat) returns (pid: int)
      modifies this`os
      ensures old(os).Free(pid) && os == old(os).Fork(pid, tag)
    {
      ghost var bound := FreshPid(os.running.Keys + os.zombies.Keys);
      assert os.Free(bound);
      pid :| os.Free(pid);
      os := os.Fork(pid, tag);
    }

    /** waitid(P_ALL, WEXITED|WNOHANG): reaps some zombie, or reports pid 0 if there is none. */
    method WaitId() returns (pid: int, status: ExitStatus)
      requires forall p :: p in os.zombies ==> p > 0 && os.zombies[p] in os.fate
      modifies this`os
      ensures old(os).zombies.Keys == {} ==> pid == 0 && os == old(os)
      ensures old(os).zombies.Keys != {} ==>
        pid in old(os).zombies && status == old(os).fate[old(os).zombies[pid]] && os == old(os).Reap(pid)
    {
      if p :| p in os.zombies.Keys {
        pid, status := p, os.fate[os.zombies[p]];
        os := os.Reap(p);
      } else {
        assert forall p :: p !in os.zombies.Keys;
        pid, status := 0, Exited(0);
      }
    }
  }

  /** action_list::item, with its identity. The process is null for a function action. */
  datatype QueuedAction = QueuedAction(id: nat, job: Job, process: ProcessImpl?)

  class ActionQueue {
    var actions: seq<QueuedAction>
    var execEv: bool
    var timeoutEv: Option<real>
    var killEv: Option<real>
    var executed: nat
    var failed: nat
    const list: List
    const system: System
    var appended: seq<Job>  // history, for the identities
    ghost var log: seq<Entry>
    ghost var removed: nat

    constructor (system: System, list: List)
      requires system.os == NO_CHILDREN && list.Valid() && list.nodes == []
      ensures Valid() && Abs() == Init(system.now)
      ensures this.system == system && this.list == list
    {
      this.system, this.list := system, list;
      actions, execEv, timeoutEv, killEv := [], false, None, None;
      executed, failed, appended, log, removed := 0, 0, [], [], 0;
      new;
      ReachableInit(system.now);
      assert Links(list) == [];
    }

    static ghost function ProcessesOf(actions: seq<QueuedAction>): set<ProcessImpl> {
      set i | 0 <= i < |actions| && actions[i].process != null :: actions[i].process
    }

    ghost function Processes(): set<ProcessImpl>
      reads this`actions
    {
      ProcessesOf(actions)
    }

    /** Exactly the command actions own a process, which exists; only the head's can be linked. */
    ghost predicate Shape()
      reads this, list, list.nodes, Processes()
    {
      && list.Valid()
      && removed + |actions| == |appended|
      && (forall i :: 0 <= i < |actions| ==> actions[i].id == removed + i && OwnsProcess(actions[i]))
      && (list.nodes != [] ==> actions != [] && list.nodes == [actions[0].process])
    }

    static ghost predicate OwnsProcess(a: QueuedAction)
      reads a.process
    {
      if a.job.body.Command? then a.process != null && a.process.id == a.id && a.process.alive
      else a.process == null
    }

    static ghost function ItemOf(a: QueuedAction): Item
      reads a.process
    {
      if a.process == null then Item(a.id, a.job, NO_PID, false)
      else Item(a.id, a.job, a.process.pid, a.process.handler)
    }

    static ghost function Queue(actions: seq<QueuedAction>): (r: seq<Item>)
      reads ProcessesOf(actions)
      ensures |r| == |actions| && forall i :: 0 <= i < |r| ==> r[i] == ItemOf(actions[i])
    {
      seq(|actions|, i requires 0 <= i < |actions| reads ProcessesOf(actions) => ItemOf(actions[i]))
    }

    static ghost function Links(list: List): (r: seq<nat>)
      reads list
      ensures |r| == |list.nodes| && forall i :: 0 <= i < |r| ==> r[i] == list.nodes[i].id
    {
      seq(|list.nodes|, i requires 0 <= i < |list.nodes| reads list => list.nodes[i].id)
    }

    /** The state of Scheduler that the objects represent. */
    ghost function Abs(): State
      reads this, Processes(), list, system
    {
      State(Queue(actions), Links(list), execEv, timeoutEv, killEv, system.now, system.os,
            executed, failed, appended, log)
    }

    ghost predicate Represents(s: State)
      reads this, list, list.nodes, Processes(), system
    {
      Shape() && Abs() == s
    }

    /** The objects represent a state that some run leads to. */
    ghost predicate Valid()
      reads this, list, list.nodes, Processes(), system
    {
      exists s :: Reachable(s) && Represents(s)
    }

    /** What holds between the rounds of onSigchld. */
    ghost predicate Sound()
      reads this, list, list.nodes, Processes(), system
    {
      Shape() && Good(Ok(Abs()))
    }

    /** action_list::append, for commands and for functions. */
    method Append(job: Job)
      requires Valid()
      modifies this
      ensures Valid() && Abs() == Scheduler.Append(old(Abs()), job)
    {
      ReachableStep(Abs(), AppendEvent(job));
      EmplaceBack(job);
    }

    method EmplaceBack(job: Job)
      requires Shape()
      modifies this
      ensures Shape() && Abs() == Scheduler.Append(old(Abs()), job)
    {
      ghost var queue := Queue(actions);
      var process: ProcessImpl? := null;
      if job.body.Command? {
        process := new ProcessImpl(|appended|);
      }
      actions := actions + [QueuedAction(|appended|, job, process)];
      appended := appended + [job];
      if |actions| == 1 {
        execEv := true;
      }
      assert Queue(actions) == queue + [Item(|appended| - 1, job, NO_PID, false)];
    }

    /** Pops and destroys the head, and activates execEv if actions are left. */
    method PopFront()
      requires Shape() && actions != [] && list.nodes == []
      requires actions[0].process != null ==> actions[0].process.pid == NO_PID
      modifies this, Processes()
      ensures Shape() && Scheduler.PopFront(old(Abs())) == Ok(Abs())
      ensures actions == old(actions)[1..]
      ensures list.nodes == []
    {
      ghost var queue := Queue(actions);
      var process := actions[0].process;
      actions := actions[1..];
      removed := removed + 1;
      if process != null {
        ghost var terminates := process.Destroy();
        assert !terminates;
      }
      if actions != [] {
        execEv := true;
      }
      assert Queue(actions) == queue[1..];
    }

    /** Records how the head ended; addFailure() if that counts; finishExecuteAction(). */
    method EndHead(how: How)
      requires Shape() && actions != [] && list.nodes == []
      requires actions[0].process != null ==> actions[0].process.pid == NO_PID
      modifies this, Processes()
      ensures Shape() && Scheduler.EndHead(old(Abs()), how) == Ok(Abs())
      ensures actions == old(actions)[1..]
      ensures list.nodes == []
    {
      log := log + [Ended(actions[0].id, how)];
      if CountsAsFailure(how) {
        failed := failed + 1;
      }
      PopFront();
    }

    /** The completion handler that is passed to process::start. */
    method Complete(status: ExitStatus)
      requires Shape() && actions != [] && list.nodes == []
      requires actions[0].process != null ==> actions[0].process.pid == NO_PID
      modifies this, Processes()
      ensures Shape() && Scheduler.Complete(old(Abs()), status) == Ok(Abs())
      ensures failed == old(failed) + match status
                                      case Signalled(_) => 1
                                      case Exited(code) => if code != 0 then 1 else 0
      ensures actions == old(actions)[1..]
      ensures list.nodes == []
    {
      timeoutEv, killEv := None, None;
      EndHead(Completed(status));
    }

    /** process::start in the parent, whatever is linked already. */
    method StartChild(process: ProcessImpl) returns (pid: int)
      requires list.Valid() && process.alive && process !in list.nodes
      modifies system`os, process, list
      ensures list.Valid() && list.nodes == [process] + old(list.nodes)
      ensures old(system.os).Free(pid) && system.os == old(system.os).Fork(pid, process.id)
      ensures process.pid == pid && process.handler && process.alive
    {
      pid := system.Fork(process.id);
      process.handler := true;
      process.pid := pid;
      list.Add(process);
    }

    /** Starts the process of the head, in terms of what the objects represent. */
    method StartHead() returns (pid: int)
      requires Shape() && actions != [] && actions[0].process != null && list.nodes == []
      modifies Processes(), list, system`os
      ensures Shape() && old(system.os).Free(pid) && system.os == old(system.os).Fork(pid, actions[0].id)
      ensures Queue(actions) == old(Queue(actions))[0 := old(Queue(actions))[0].(pid := pid, handler := true)]
      ensures Links(list) == [actions[0].id]
    {
      ghost var queue := Queue(actions);
      pid := StartChild(actions[0].process);
      assert Queue(actions) == queue[0 := queue[0].(pid := pid, handler := true)];
    }

    method ExecuteProcess() returns (ghost pid: int)
      requires Shape() && actions != [] && actions[0].job.body.Command? && list.nodes == []
      modifies this, Processes(), list, system`os
      ensures Shape() && old(system.os).Free(pid) && Scheduler.StartProcess(old(Abs()), pid) == Ok(Abs())
      ensures timeoutEv == Some(system.now + old(actions[0].job.body.timeout) as real)
    {
      ghost var s := Abs();
      assert s.links == [] && s.queue[0].id == actions[0].id;
      var child := StartHead();
      pid := child;
      timeoutEv := Some(system.now + actions[0].job.body.timeout as real);
      assert Links(list) == [s.queue[0].id] + s.links;
    }

    /** executeFunction. throws says whether the function throws an exception. */
    method ExecuteFunction(throws: bool)
      requires Shape() && actions != [] && actions[0].job.body.Function? && list.nodes == []
      modifies this, Processes()
      ensures Shape() && Scheduler.EndHead(old(Abs()), if throws then Threw else Returned) == Ok(Abs())
    {
      EndHead(if throws then Threw else Returned);
    }

    /** executeNextAction. throws says whether a function action throws an exception. */
    method ExecuteNextAction(throws: bool) returns (ghost pid: int)
      requires Valid() && execEv
      modifies this, Processes(), list, system`os
      ensures Valid() && old(system.os).Free(pid)
      ensures Scheduler.ExecuteNext(old(Abs()), pid, throws) == Ok(Abs())
    {
      ghost var s := Abs();
      ReachableInv(s);
      HeadWaits();
      pid := Execute(throws);
      ReachableStep(s, ExecEvent(pid, throws));
      assert Represents(Abs());
    }

    /** While execEv is active, there is a head, which was not started. */
    lemma HeadWaits()
      requires Sound() && execEv
      ensures actions != [] && list.nodes == []
    {
      assert |Links(list)| == |list.nodes|;
    }

    method Execute(throws: bool) returns (ghost pid: int)
      requires Shape() && actions != [] && list.nodes == []
      modifies this, Processes(), list, system`os
      ensures Shape() && old(system.os).Free(pid)
      ensures Scheduler.ExecuteNext(old(Abs()), pid, throws) == Ok(Abs())
    {
      ghost var s := Abs();
      assert s.queue[0] == ItemOf(actions[0]);
      execEv := false;
      log := log + [Started(actions[0].id, actions[0].job)];
      executed := executed + 1;
      if actions[0].job.body.Command? {
        pid := ExecuteProcess();
      } else {
        pid := FreshPid(system.os.running.Keys + system.os.zombies.Keys);
        ExecuteFunction(throws);
      }
    }

    /** The head is a command that was started, and it is the one linked process. */
    ghost predicate HeadRuns()
      reads this, list, list.nodes, Processes()
    {
      && Shape() && actions != [] && actions[0].process != null && list.nodes == [actions[0].process]
      && actions[0].process.pid != NO_PID && actions[0].process.handler
    }

    lemma RunningHead()
      requires Sound()
      ensures if Running(Abs()) then HeadRuns() else list.nodes == []
    {
      assert |Links(list)| == |list.nodes|;
      if Running(Abs()) {
        assert Queue(actions)[0] == ItemOf(actions[0]);
        assert |Links(list)| == 1;
      }
    }

    /** terminateCurrentAction. SIGTERM may or may not end the child; that is its own event. */
    method TerminateCurrentAction()
      requires Valid() && Enabled(Abs(), TimeoutEvent)
      modifies this
      ensures Valid() && Scheduler.TerminateCurrent(old(Abs())) == Ok(Abs())
    {
      ReachableStep(Abs(), TimeoutEvent);
      ReachableInv(Abs());
      RunningHead();
      Terminate();
    }

    method Terminate()
      requires HeadRuns()
      modifies this
      ensures Shape() && Scheduler.TerminateCurrent(old(Abs())) == Ok(Abs())
    {
      ghost var s := Abs();
      assert OwnsProcess(actions[0]) && s.queue[0] == ItemOf(actions[0]);
      timeoutEv, killEv := None, Some(system.now + 1.0);
      assert Abs() == s.(timeoutEv := None, killEv := Some(s.now + 1.0));
    }

    /** killCurrentAction. */
    method KillCurrentAction()
      requires Valid() && Enabled(Abs(), KillEvent)
      modifies this, Processes(), list
      ensures Valid() && Scheduler.KillCurrent(old(Abs())) == Ok(Abs())
    {
      ReachableStep(Abs(), KillEvent);
      ReachableInv(Abs());
      RunningHead();
      Kill();
    }

    method Kill()
      requires HeadRuns()
      modifies this, Processes(), list
      ensures Shape() && Scheduler.KillCurrent(old(Abs())) == Ok(Abs())
    {
      ghost var s := Abs();
      assert s.queue[0] == ItemOf(actions[0]);
      assert s.links == [s.queue[0].id];
      killEv := None;
      KillProcess(actions[0].process);
      assert Queue(actions) == s.queue[0 := s.queue[0].(pid := NO_PID, handler := false)];
      assert Links(list) == [] == Without(s.links, s.queue[0].id);
      EndHead(Killed);
    }

    /** process::kill: clears the pid and the handler and takes the process off the list. */
    method KillProcess(process: ProcessImpl)
      requires list.Valid() && process in list.nodes
      modifies list, list.nodes`next, process
      ensures list.Valid() && process.pid == NO_PID && !process.handler && process.alive
      ensures exists k :: 0 <= k < |old(list.nodes)| && old(list.nodes)[k] == process && list.nodes == Drop(old(list.nodes), k)
    {
      process.pid := NO_PID;
      process.handler := false;
      list.Remove(process);
    }

    /**
     One round of onSigchld after waitid has returned: the process with the pid is unlinked, and its
     handler, if there is such a process, is called with the status. t is the state before waitid.
     */
    method HandleExit(pid: int, status: ExitStatus, ghost t: State)
      requires HeadRuns() || (Shape() && list.nodes == [])
      requires pid in t.os.zombies && t.os.zombies[pid] in t.os.fate
      requires status == t.os.fate[t.os.zombies[pid]] && Abs() == t.(os := t.os.Reap(pid))
      modifies this, Processes(), list, list.nodes
      ensures Shape() && Reap(t, pid) == Ok(Abs())
      ensures actions == old(actions) || (old(actions) != [] && actions == old(actions)[1..])
      ensures list.nodes == [] || list.nodes == old(list.nodes)
    {
      WalkFinds(pid);
      ReapByWalk(t, pid);
      var process := DetachProcess(pid);
      if process != null {
        Complete(status);
      }
    }

    /** Takes the process with the pid off the list, in terms of what the objects represent. */
    method DetachProcess(pid: int) returns (process: ProcessImpl?)
      requires HeadRuns() || (Shape() && list.nodes == [])
      modifies list, list.nodes
      ensures Shape()
      ensures process == if old(list.nodes) != [] && old(list.nodes[0].pid) == pid then old(list.nodes[0]) else null
      ensures process == null ==> Queue(actions) == old(Queue(actions)) && list.nodes == old(list.nodes)
      ensures process == null ==> Links(list) == old(Links(list))
      ensures process != null ==> list.nodes == [] && Links(list) == [] && process.pid == NO_PID
      ensures process != null ==>
        Queue(actions) == old(Queue(actions)[0 := Queue(actions)[0].(pid := NO_PID, handler := false)])
    {
      WalkFinds(pid);
      ghost var queue := Queue(actions);
      var handler;
      process, handler := list.Detach(pid);
      if process != null {
        assert handler;
        assert Queue(actions) == queue[0 := queue[0].(pid := NO_PID, handler := false)];
      } else {
        assert Queue(actions) == queue;
      }
    }

    /** The walk finds the head or nothing, over the nodes as over their ids. */
    lemma WalkFinds(pid: int)
      requires HeadRuns() || (Shape() && list.nodes == [])
      ensures var found := list.nodes != [] && actions[0].process.pid == pid;
        && FindLink(Queue(actions), Links(list), pid) == Ok(if found then Some(0) else None)
        && Find(list.Links(), pid) == (if found then 0 else |list.nodes|)
      ensures list.nodes != [] ==> Queue(actions)[0] == ItemOf(actions[0]) && Links(list) == [Queue(actions)[0].id]
    {
      if list.nodes != [] {
        assert Queue(actions)[0] == ItemOf(actions[0]);
        assert Links(list) == [Queue(actions)[0].id];
        WalkFindsHead(Queue(actions), pid);
        assert list.Links() == [Link(actions[0].id, actions[0].process.pid)];
      }
    }

    /** The loop of onSigchld once: waitid, and the exit it reports, if it reports one. */
    method ReapOne() returns (done: bool)
      requires Sound()
      modifies this, Processes(), list, list.nodes, system`os
      ensures Sound() && AllReaped(Abs()) == AllReaped(old(Abs()))
      ensures done ==> system.os.zombies.Keys == {}
      ensures !done ==> system.os.zombies.Keys < old(system.os.zombies.Keys)
      ensures actions == old(actions) || (old(actions) != [] && actions == old(actions)[1..])
      ensures list.nodes == [] || list.nodes == old(list.nodes)
    {
      ghost var t := Abs();
      RunningHead();
      var pid, status := system.WaitId();
      done := pid == 0;
      if !done {
        assert Abs() == t.(os := t.os.Reap(pid));
        ReapThis(pid, status, t);
      }
    }

    /** The same for the child that waitid has reaped. */
    method ReapThis(pid: int, status: ExitStatus, ghost t: State)
      requires HeadRuns() || (Shape() && list.nodes == [])
      requires Inv(t) && pid in t.os.zombies
      requires status == t.os.fate[t.os.zombies[pid]] && Abs() == t.(os := t.os.Reap(pid))
      modifies this, Processes(), list, list.nodes
      ensures Sound() && AllReaped(Abs()) == AllReaped(t) && system.os == t.os.Reap(pid)
      ensures actions == old(actions) || (old(actions) != [] && actions == old(actions)[1..])
      ensures list.nodes == [] || list.nodes == old(list.nodes)
    {
      HandleExit(pid, status, t);
      OneOfAll(t, pid);
    }

    lemma FewerProcesses(actions: seq<QueuedAction>, k: nat)
      requires k <= |actions|
      ensures ProcessesOf(actions[k..]) <= ProcessesOf(actions)
    {
    }

    /**
     onSigchld. It reaps every zombie, one round per zombie, and comes to the same as Scheduler's
     Sigchld for any order in which waitid may report them.
     */
    method OnSigchld()
      requires Valid()
      modifies this, Processes(), list, list.nodes, system`os
      ensures Valid() && AllReaped(old(Abs())) == Ok(Abs())
      ensures system.os.zombies.Keys == {}
      ensures forall order :: Enumerates(order, old(system.os.zombies.Keys)) ==> Sigchld(old(Abs()), order) == Ok(Abs())
    {
      ghost var s := Abs();
      ReachableInv(s);
      ReachableReaped(s);
      ghost var k: nat := 0;
      var done := false;
      while !done
        invariant Sound() && AllReaped(Abs()) == AllReaped(s)
        invariant k <= |old(actions)| && actions == old(actions)[k..]
        invariant list.nodes == [] || list.nodes == old(list.nodes)
        invariant done ==> system.os.zombies.Keys == {}
        decreases !done, system.os.zombies.Keys
      {
        FewerProcesses(old(actions), k);
        ghost var before := actions;
        done := ReapOne();
        if actions != before {
          k := k + 1;
        }
      }
      NothingToReap(Abs());
    }

    // What happens between two callbacks keeps the objects valid, too.

    /** A child of the action list ends. */
    method ChildExits(pid: int, status: ExitStatus)
      requires Valid() && pid in system.os.running
      modifies system`os
      ensures Valid() && Step(old(Abs()), ChildExit(pid, status)) == Ok(Abs())
    {
      ghost var s := Abs();
      ReachableStep(s, ChildExit(pid, status));
      system.os := system.os.Exit(pid, status);
      assert Represents(s.(os := s.os.Exit(pid, status)));
    }

    method TimePasses(seconds: real)
      requires Valid() && seconds >= 0.0
      modifies system`now
      ensures Valid() && Step(old(Abs()), Tick(seconds)) == Ok(Abs())
    {
      ghost var s := Abs();
      ReachableStep(s, Tick(seconds));
      system.now := system.now + seconds;
      assert Represents(s.(now := s.now + seconds));
    }

    static lemma NothingToReap(s: State)
      requires s.os.zombies.Keys == {}
      ensures AllReaped(s) == Ok(s)
    {
      assert s.os.zombies == map[];
    }
  }
}
