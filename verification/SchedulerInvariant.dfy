/**
 The invariant of the action list and its proof: it holds initially, every enabled event keeps it,
 and no event that is enabled in a state that satisfies it returns a Fault.
 */
module SchedulerInvariant {
  import opened Wrappers
  import opened Kernel
  import opened Scheduler

  ghost predicate Fresh(item: Item) {
    item.pid == NO_PID && !item.handler
  }

  ghost predicate Running(s: State) {
    s.queue != [] && s.queue[0].pid != NO_PID
  }

  /** How many actions have left the queue, and how many were started. */
  ghost function Removed(s: State): int {
    |s.appended| - |s.queue|
  }

  ghost function Begun(s: State): int {
    Removed(s) + if Running(s) then 1 else 0
  }

  /** The queue is the tail of what was appended, and only its head can have been started. */
  ghost predicate QueueInv(s: State) {
    && |s.queue| <= |s.appended|
    && (forall i :: 0 <= i < |s.queue| ==>
          s.queue[i].id == Removed(s) + i && s.queue[i].job == s.appended[Removed(s) + i])
    && (forall i :: 0 < i < |s.queue| ==> Fresh(s.queue[i]))
  }

  /** Which events are armed, and which process is linked, depending on the head of the queue. */
  ghost predicate EventInv(s: State) {
    if Running(s) then
      && s.queue[0].job.body.Command? && s.queue[0].handler
      && s.links == [s.queue[0].id]
      && !s.execEv
      && s.timeoutEv.Some? == s.killEv.None?
    else
      && (s.queue != [] ==> Fresh(s.queue[0]))
      && s.links == []
      && s.execEv == (s.queue != [])
      && s.timeoutEv.None? && s.killEv.None?
  }

  /** Children belong to different actions that were started, and zombies have a recorded fate. */
  ghost predicate OsInv(os: Os, begun: int) {
    && (forall p :: p in os.running ==>
          p > 0 && p !in os.zombies && os.running[p] !in os.fate && Owns(os, os.running[p], p))
    && (forall p :: p in os.zombies ==>
          p > 0 && os.zombies[p] in os.fate && Owns(os, os.zombies[p], p))
    && (forall k :: k in os.pids ==> k < begun)
    && (forall k :: k in os.fate ==> k in os.pids)
  }

  ghost predicate Owns(os: Os, tag: nat, pid: int) {
    tag in os.pids && os.pids[tag] == pid
  }

  /** The head's child is not reaped while the head is running. */
  ghost predicate ChildInv(s: State) {
    Running(s) ==>
      var head := s.queue[0];
      || (head.pid in s.os.running && s.os.running[head.pid] == head.id)
      || (head.pid in s.os.zombies && s.os.zombies[head.pid] == head.id)
  }

  /**
   The history is Started(0), Ended(0), Started(1), Ended(1), ... without a gap: every action is
   started and ended at most once, in the order of the queue, and never while another one runs.
   */
  ghost predicate SerialLog(log: seq<Entry>, appended: seq<Job>) {
    forall j :: 0 <= j < |log| ==> InPlace(log[j], j, appended)
  }

  ghost predicate InPlace(e: Entry, j: nat, appended: seq<Job>) {
    && j / 2 < |appended|
    && if j % 2 == 0 then e == Started(j / 2, appended[j / 2]) else e.Ended? && e.id == j / 2
  }

  ghost predicate Serial(s: State) {
    SerialLog(s.log, s.appended) && |s.log| == Removed(s) + Begun(s)
  }

  /** An action that ended by an exit ended with the exit status of its own child. */
  ghost predicate OwnExit(log: seq<Entry>, fate: map<nat, ExitStatus>) {
    forall k :: 0 <= k < |log| ==> log[k].Ended? && log[k].how.Completed? ==>
      log[k].id in fate && fate[log[k].id] == log[k].how.status
  }

  /** The classes the counters distinguish. Killed is a third one beside good and failed. */
  datatype Class = GoodEnd | BadEnd | KillEnd

  function ClassOf(how: How): Class {
    match how
    case Completed(status) => if IsFailure(status) then BadEnd else GoodEnd
    case Returned => GoodEnd
    case Threw => BadEnd
    case Killed => KillEnd
  }

  function Tally(log: seq<Entry>, c: Class): nat {
    if log == [] then 0
    else Tally(log[..|log| - 1], c) +
         if log[|log| - 1].Ended? && ClassOf(log[|log| - 1].how) == c then 1 else 0
  }

  /** failed counts the bad ends; good, bad and killed ends together are all ends. */
  ghost predicate Counted(log: seq<Entry>, failed: nat, ends: int) {
    && failed == Tally(log, BadEnd)
    && Tally(log, GoodEnd) + Tally(log, BadEnd) + Tally(log, KillEnd) == ends
  }

  ghost predicate Inv(s: State) {
    && QueueInv(s) && EventInv(s) && OsInv(s.os, Begun(s)) && ChildInv(s)
    && Serial(s) && OwnExit(s.log, s.os.fate)
    && s.executed == Begun(s) && Counted(s.log, s.failed, Removed(s))
  }

  /** A callback went well: it returned no Fault, and the invariant holds afterwards. */
  ghost predicate Good(o: Outcome) {
    match o
    case Ok(t) => Inv(t)
    case Err(_) => false
  }

  // ---------------------------------------------------------------- every event keeps it

  lemma InitInv(now: real)
    ensures Inv(Init(now))
  {
  }

  lemma TallyAppend(log: seq<Entry>, e: Entry, c: Class)
    ensures Tally(log + [e], c) == Tally(log, c) + if e.Ended? && ClassOf(e.how) == c then 1 else 0
  {
    assert (log + [e])[..|log|] == log;
  }

  /** The history gets one entry longer: in its place, and with its own exit status if it has one. */
  lemma LogGrows(log: seq<Entry>, e: Entry, appended: seq<Job>, fate: map<nat, ExitStatus>, failed: nat, ends: int)
    requires SerialLog(log, appended) && InPlace(e, |log|, appended)
    requires OwnExit(log, fate) && OwnExit([e], fate)
    requires Counted(log, failed, ends)
    ensures SerialLog(log + [e], appended) && OwnExit(log + [e], fate)
    ensures Counted(log + [e],
                    if e.Ended? && CountsAsFailure(e.how) then failed + 1 else failed,
                    if e.Ended? then ends + 1 else ends)
  {
    TallyAppend(log, e, GoodEnd);
    TallyAppend(log, e, BadEnd);
    TallyAppend(log, e, KillEnd);
    assert [e][0] == e;
  }

  lemma AppendKeeps(s: State, job: Job)
    requires Inv(s)
    ensures Good(Ok(Append(s, job)))
  {
  }

  /** Ending and popping a head that was started, when nothing is armed or linked any more. */
  lemma EndKeeps(t: State, how: How)
    requires QueueInv(t) && t.queue != [] && Fresh(t.queue[0]) && t.links == []
    requires !t.execEv && t.timeoutEv.None? && t.killEv.None?
    requires OsInv(t.os, Removed(t) + 1)
    requires SerialLog(t.log, t.appended) && |t.log| == 2 * Removed(t) + 1
    requires OwnExit(t.log, t.os.fate) && OwnExit([Ended(Removed(t), how)], t.os.fate)
    requires t.executed == Removed(t) + 1 && Counted(t.log, t.failed, Removed(t))
    ensures Good(EndHead(t, how))
  {
    LogGrows(t.log, Ended(t.queue[0].id, how), t.appended, t.os.fate, t.failed, Removed(t));
    EndResult(t, how);
    PopQueue(t);
    SameQueue(t.(queue := t.queue[1..]), EndHead(t, how).value);
  }

  /** What EndHead comes to when it does not fault. */
  lemma EndResult(t: State, how: How)
    requires t.queue != [] && Fresh(t.queue[0]) && t.links == [] && !t.execEv
    ensures EndHead(t, how) == Ok(t.(
      queue := t.queue[1..], execEv := |t.queue| > 1,
      failed := t.failed + (if CountsAsFailure(how) then 1 else 0), log := t.log + [Ended(t.queue[0].id, how)]))
  {
  }

  lemma PopQueue(t: State)
    requires QueueInv(t) && t.queue != []
    ensures var u := t.(queue := t.queue[1..]);
      QueueInv(u) && !Running(u) && Removed(u) == Removed(t) + 1
  {
  }

  lemma ForkKeeps(os: Os, begun: nat, pid: int)
    requires OsInv(os, begun) && os.Free(pid)
    ensures OsInv(os.Fork(pid, begun), begun + 1)
  {
  }

  /** Starting the child of a head that was dispatched. */
  lemma ForkHeadKeeps(t: State, pid: int)
    requires QueueInv(t) && t.queue != [] && Fresh(t.queue[0]) && t.queue[0].job.body.Command?
    requires t.links == [] && !t.execEv && t.timeoutEv.None? && t.killEv.None?
    requires OsInv(t.os, Removed(t)) && t.os.Free(pid)
    requires SerialLog(t.log, t.appended) && |t.log| == 2 * Removed(t) + 1 && OwnExit(t.log, t.os.fate)
    requires t.executed == Removed(t) + 1 && Counted(t.log, t.failed, Removed(t))
    ensures Good(StartProcess(t, pid))
  {
    ForkKeeps(t.os, Removed(t), pid);
    var u := StartProcess(t, pid).value;
    assert Removed(u) == Removed(t) && Begun(u) == Removed(t) + 1 && u.os == t.os.Fork(pid, Removed(t));
  }

  lemma StartKeeps(s: State, pid: int, throws: bool)
    requires Inv(s) && Enabled(s, ExecEvent(pid, throws)) && s.queue[0].job.body.Command?
    ensures Good(ExecuteNext(s, pid, throws))
  {
    var started := Started(s.queue[0].id, s.queue[0].job);
    LogGrows(s.log, started, s.appended, s.os.fate, s.failed, Removed(s));
    var t := s.(execEv := false, executed := s.executed + 1, log := s.log + [started]);
    assert ExecuteNext(s, pid, throws) == StartProcess(t, pid);
    SameQueue(s, t);
    ForkHeadKeeps(t, pid);
  }

  lemma CallKeeps(s: State, pid: int, throws: bool)
    requires Inv(s) && Enabled(s, ExecEvent(pid, throws)) && s.queue[0].job.body.Function?
    ensures Good(ExecuteNext(s, pid, throws))
  {
    var started := Started(s.queue[0].id, s.queue[0].job);
    LogGrows(s.log, started, s.appended, s.os.fate, s.failed, Removed(s));
    var t := s.(execEv := false, executed := s.executed + 1, log := s.log + [started]);
    var how := if throws then Threw else Returned;
    assert ExecuteNext(s, pid, throws) == EndHead(t, how);
    SameQueue(s, t);
    EndKeeps(t, how);
  }

  /** What QueueInv depends on. */
  lemma SameQueue(s: State, t: State)
    requires QueueInv(s) && t.queue == s.queue && t.appended == s.appended
    ensures QueueInv(t) && Removed(t) == Removed(s)
  {
  }

  lemma TimeoutKeeps(s: State)
    requires Inv(s) && Enabled(s, TimeoutEvent)
    ensures Good(TerminateCurrent(s))
  {
  }

  lemma KillKeeps(s: State)
    requires Inv(s) && Enabled(s, KillEvent)
    ensures Good(KillCurrent(s))
  {
    assert Without(s.links, s.queue[0].id) == [];
    EndKeeps(s.(queue := s.queue[0 := s.queue[0].(pid := NO_PID, handler := false)],
                links := [], killEv := None), Killed);
  }

  /** A signal is only ever sent to the unreaped child of the head itself. */
  lemma SignalsOwnChild(s: State)
    requires Inv(s) && (Enabled(s, TimeoutEvent) || Enabled(s, KillEvent))
    ensures Running(s) && s.queue[0].pid > 0 && Owns(s.os, s.queue[0].id, s.queue[0].pid)
    ensures var pid := s.queue[0].pid;
      || (pid in s.os.running && s.os.running[pid] == s.queue[0].id)
      || (pid in s.os.zombies && s.os.zombies[pid] == s.queue[0].id)
  {
  }

  /** The running head is unlinked, its pid is cleared and nothing is armed; the children are os. */
  ghost function HeadDetached(s: State, os: Os): State
    requires s.queue != []
  {
    s.(queue := s.queue[0 := s.queue[0].(pid := NO_PID, handler := false)],
       links := [], timeoutEv := None, killEv := None, os := os)
  }

  lemma DetachedQueue(s: State, os: Os)
    requires QueueInv(s) && s.queue != []
    ensures var t := HeadDetached(s, os);
      QueueInv(t) && Fresh(t.queue[0]) && Removed(t) == Removed(s) && t.queue[0].id == Removed(s)
  {
  }

  lemma ReapKeepsOs(os: Os, pid: int, begun: int)
    requires OsInv(os, begun)
    ensures OsInv(os.Reap(pid), begun)
  {
  }

  /** What a round of onSigchld does, given what its walk finds in a list of at most the head. */
  lemma ReapByWalk(s: State, pid: int)
    requires pid in s.os.zombies && s.os.zombies[pid] in s.os.fate
    ensures FindLink(s.queue, s.links, pid) == Ok(None) ==> Reap(s, pid) == Ok(s.(os := s.os.Reap(pid)))
    ensures FindLink(s.queue, s.links, pid) == Ok(Some(0)) && s.links == [s.queue[0].id] && s.queue[0].handler ==>
      Reap(s, pid) == Complete(
        s.(os := s.os.Reap(pid), links := [],
           queue := s.queue[0 := s.queue[0].(pid := NO_PID, handler := false)]),
        s.os.fate[s.os.zombies[pid]])
  {
    if s.queue != [] && s.links == [s.queue[0].id] {
      assert Without(s.links, s.queue[0].id) == [];
    }
  }

  /** The exit of the running head's child: its handler runs, with its status, and pops it. */
  lemma ReapHeadKeeps(s: State, pid: int)
    requires Inv(s) && pid in s.os.zombies && Running(s) && s.queue[0].pid == pid
    ensures s.queue[0].id in s.os.fate
    ensures Reap(s, pid) == EndHead(HeadDetached(s, s.os.Reap(pid)), Completed(s.os.fate[s.queue[0].id]))
    ensures Good(Reap(s, pid))
  {
    WalkFindsHead(s.queue, pid);
    ReapByWalk(s, pid);
    ReapKeepsOs(s.os, pid, Begun(s));
    assert s.os.zombies[pid] == s.queue[0].id;
    var t := HeadDetached(s, s.os.Reap(pid));
    DetachedQueue(s, s.os.Reap(pid));
    assert Reap(s, pid) == EndHead(t, Completed(s.os.fate[s.queue[0].id]));
    EndKeeps(t, Completed(s.os.fate[s.queue[0].id]));
  }

  /** The walk over the process list [head] finds the head by its pid, or nothing. */
  lemma WalkFindsHead(queue: seq<Item>, pid: int)
    requires queue != [] && forall i :: 0 < i < |queue| ==> queue[i].id != queue[0].id
    ensures FindLink(queue, [queue[0].id], pid) == Ok(if queue[0].pid == pid then Some(0) else None)
  {
    var links := [queue[0].id];
    assert links[1..] == [];
    assert Lookup(queue, links[0]) == Some(0);
  }

  /** Any other exit, for example the late one of a killed child, only removes the zombie. */
  lemma ReapStrayKeeps(s: State, pid: int)
    requires Inv(s) && pid in s.os.zombies && !(Running(s) && s.queue[0].pid == pid)
    ensures Reap(s, pid) == Ok(s.(os := s.os.Reap(pid)))
    ensures Good(Reap(s, pid))
  {
    if Running(s) {
      WalkFindsHead(s.queue, pid);
    }
    FewerZombies(s, pid);
  }

  lemma FewerZombies(s: State, pid: int)
    requires Inv(s) && !(Running(s) && s.queue[0].pid == pid)
    ensures Good(Ok(s.(os := s.os.Reap(pid))))
  {
  }

  /** The child of the running head has exited and waits to be reaped. */
  ghost predicate HeadExited(s: State) {
    Running(s) && s.queue[0].pid in s.os.zombies
  }

  /** All that SIGCHLD handling comes to: every zombie is gone, and an exited head is ended. */
  ghost function AllReaped(s: State): Outcome {
    var os := s.os.(zombies := map[]);
    if HeadExited(s) && s.queue[0].id in s.os.fate then
      EndHead(HeadDetached(s, os), Completed(s.os.fate[s.queue[0].id]))
    else
      Ok(s.(os := os))
  }

  /**
   However the kernel orders the zombies, onSigchld reaps them all and does the same: the handler
   of the head runs if and only if its child is among them, once, and no other handler runs.
   */
  lemma {:induction false} SigchldKeeps(s: State, order: seq<int>)
    requires Inv(s) && Enumerates(order, s.os.zombies.Keys)
    ensures Good(Sigchld(s, order))
    ensures Sigchld(s, order) == AllReaped(s)
    decreases |order|
  {
    if order == [] {
      assert forall p :: p !in s.os.zombies.Keys;
      assert s.os.zombies == map[];
    } else {
      var pid := order[0];
      OneOfAll(s, pid);
      TailEnumerates(order, s.os.zombies.Keys);
      SigchldKeeps(Reap(s, pid).value, order[1..]);
    }
  }

  /** Reaping one zombie first and all others then comes to the same as reaping all of them. */
  lemma OneOfAll(s: State, pid: int)
    requires Inv(s) && pid in s.os.zombies
    ensures Good(Reap(s, pid)) && AllReaped(Reap(s, pid).value) == AllReaped(s)
    ensures Reap(s, pid).value.os == s.os.Reap(pid)
  {
    if Running(s) && s.queue[0].pid == pid {
      HeadOfAll(s, pid);
    } else {
      StrayOfAll(s, pid);
    }
  }

  lemma HeadOfAll(s: State, pid: int)
    requires Inv(s) && pid in s.os.zombies && Running(s) && s.queue[0].pid == pid
    ensures Good(Reap(s, pid)) && AllReaped(Reap(s, pid).value) == AllReaped(s)
    ensures Reap(s, pid).value.os == s.os.Reap(pid)
  {
    ReapHeadKeeps(s, pid);
    DetachedEnd(s, s.os.Reap(pid), s.os.(zombies := map[]), Completed(s.os.fate[s.queue[0].id]));
  }

  lemma DetachedEnd(s: State, os: Os, os1: Os, how: How)
    requires s.queue != [] && (|s.queue| > 1 ==> Fresh(s.queue[1]))
    ensures EndHead(HeadDetached(s, os), how).Ok?
    ensures !Running(EndHead(HeadDetached(s, os), how).value)
    ensures EndHead(HeadDetached(s, os), how).value.os == os
    ensures EndHead(HeadDetached(s, os1), how) == Ok(EndHead(HeadDetached(s, os), how).value.(os := os1))
  {
  }

  lemma StrayOfAll(s: State, pid: int)
    requires Inv(s) && pid in s.os.zombies && !(Running(s) && s.queue[0].pid == pid)
    ensures Good(Reap(s, pid)) && AllReaped(Reap(s, pid).value) == AllReaped(s)
    ensures Reap(s, pid).value.os == s.os.Reap(pid)
  {
    ReapStrayKeeps(s, pid);
    assert s.os.Reap(pid).(zombies := map[]) == s.os.(zombies := map[]);
  }

  lemma TailEnumerates(order: seq<int>, pids: set<int>)
    requires Enumerates(order, pids) && order != []
    ensures Enumerates(order[1..], pids - {order[0]})
  {
    forall p ensures p in pids - {order[0]} <==> p in order[1..] {
      if p in order && p != order[0] {
        var i :| 0 <= i < |order| && order[i] == p;
        assert order[1..][i - 1] == p;
      }
    }
  }

  lemma ChildExitKeeps(s: State, pid: int, status: ExitStatus)
    requires Inv(s) && Enabled(s, ChildExit(pid, status))
    ensures Good(Ok(s.(os := s.os.Exit(pid, status))))
  {
  }

  /** No enabled event returns a Fault, and every one keeps the invariant. */
  lemma StepKeeps(s: State, e: Event)
    requires Inv(s) && Enabled(s, e)
    ensures Good(Step(s, e))
  {
    match e
    case AppendEvent(job) =>
      AppendKeeps(s, job);
      assert Step(s, e) == Ok(Append(s, job));
    case ExecEvent(pid, throws) =>
      ExecKeeps(s, pid, throws);
      assert Step(s, e) == ExecuteNext(s, pid, throws);
    case TimeoutEvent =>
      TimeoutKeeps(s);
      assert Step(s, e) == TerminateCurrent(s);
    case KillEvent =>
      KillKeeps(s);
      assert Step(s, e) == KillCurrent(s);
    case SigchldEvent(order) =>
      SigchldKeeps(s, order);
      assert Step(s, e) == Sigchld(s, order);
    case ChildExit(pid, status) =>
      ChildExitKeeps(s, pid, status);
      assert Step(s, e) == Ok(s.(os := s.os.Exit(pid, status)));
    case Tick(d) =>
      TickKeeps(s, d);
      assert Step(s, e) == Ok(s.(now := s.now + d));
  }

  lemma ExecKeeps(s: State, pid: int, throws: bool)
    requires Inv(s) && Enabled(s, ExecEvent(pid, throws))
    ensures Good(ExecuteNext(s, pid, throws))
  {
    if s.queue[0].job.body.Command? {
      StartKeeps(s, pid, throws);
    } else {
      CallKeeps(s, pid, throws);
    }
  }

  lemma TickKeeps(s: State, d: real)
    requires Inv(s)
    ensures Good(Ok(s.(now := s.now + d)))
  {
  }
}
