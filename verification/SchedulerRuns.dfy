/**
 What holds over whole runs of the action list, whatever the order of events: no fault, a serial
 history, conserved counters, draining, and a bound on every wait.
 */
module SchedulerRuns {
  import opened Wrappers
  import opened Kernel
  import opened Scheduler
  import opened SchedulerInvariant

  // ---------------------------------------------------------------- safety

  lemma {:induction false} RunKeeps(s: State, events: seq<Event>)
    requires Inv(s) && Legal(s, events)
    ensures Good(Run(s, events))
    decreases |events|
  {
    if events == [] {
    } else {
      StepKeeps(s, events[0]);
      RunKeeps(Step(s, events[0]).value, events[1..]);
    }
  }

  /** Some run leads to the state. */
  ghost predicate Reachable(s: State) {
    exists now, events :: Legal(Init(now), events) && Run(Init(now), events) == Ok(s)
  }

  lemma {:induction false} RunOneMore(s: State, events: seq<Event>, e: Event)
    requires Legal(s, events) && (Run(s, events).Ok? ==> Enabled(Run(s, events).value, e))
    ensures Legal(s, events + [e])
    ensures Run(s, events).Ok? ==> Run(s, events + [e]) == Step(Run(s, events).value, e)
    decreases |events|
  {
    if events == [] {
      assert [] + [e] == [e];
      assert [e][1..] == [];
    } else {
      assert (events + [e])[1..] == events[1..] + [e];
      if Step(s, events[0]).Ok? {
        RunOneMore(Step(s, events[0]).value, events[1..], e);
      }
    }
  }

  lemma ReachableInit(now: real)
    ensures Reachable(Init(now))
  {
    assert Legal(Init(now), []) && Run(Init(now), []) == Ok(Init(now));
  }

  /** The invariant holds in every reachable state. */
  lemma ReachableInv(s: State)
    requires Reachable(s)
    ensures Inv(s)
  {
    var now, events :| Legal(Init(now), events) && Run(Init(now), events) == Ok(s);
    RunKeeps(Init(now), events);
  }

  /** No event that is enabled in a reachable state faults, and it leads to a reachable state. */
  lemma ReachableStep(s: State, e: Event)
    requires Reachable(s) && Enabled(s, e)
    ensures Step(s, e).Ok? && Reachable(Step(s, e).value)
  {
    ReachableInv(s);
    StepKeeps(s, e);
    var now, events :| Legal(Init(now), events) && Run(Init(now), events) == Ok(s);
    ReachableBy(now, events, s, e);
  }

  lemma ReachableBy(now: real, events: seq<Event>, s: State, e: Event)
    requires Legal(Init(now), events) && Run(Init(now), events) == Ok(s)
    requires Enabled(s, e) && Step(s, e).Ok?
    ensures Reachable(Step(s, e).value)
  {
    RunOneMore(Init(now), events, e);
    assert Legal(Init(now), events + [e]) && Run(Init(now), events + [e]) == Ok(Step(s, e).value);
  }

  /**
   No interleaving of appends, exec, timeout and kill events, child exits and SIGCHLD makes the
   program call front() on an empty list, signal a process without a pid, unlink a node that is not
   linked, follow a dangling node or call an empty handler.
   */
  lemma NeverFaults(now: real, events: seq<Event>)
    requires Legal(Init(now), events)
    ensures Run(Init(now), events).Ok?
  {
    RunKeeps(Init(now), events);
  }

  /** There is an order in which waitid can report the zombies. */
  lemma {:induction false} SomeOrder(pids: set<int>) returns (order: seq<int>)
    ensures Enumerates(order, pids)
  {
    if p: int :| p in pids {
      var rest := SomeOrder(pids - {p});
      order := [p] + rest;
      assert forall q :: q in pids <==> q in order;
    } else {
      order := [];
    }
  }

  /** SIGCHLD handling as a whole, without the order. */
  lemma ReachableReaped(s: State)
    requires Reachable(s)
    ensures AllReaped(s).Ok? && Reachable(AllReaped(s).value)
    ensures forall order :: Enumerates(order, s.os.zombies.Keys) ==> Sigchld(s, order) == AllReaped(s)
  {
    ReachableInv(s);
    var some := SomeOrder(s.os.zombies.Keys);
    SigchldKeeps(s, some);
    ReachableStep(s, SigchldEvent(some));
    forall order | Enumerates(order, s.os.zombies.Keys) ensures Sigchld(s, order) == AllReaped(s) {
      SigchldKeeps(s, order);
    }
  }

  /** The jobs whose execution has begun, in the order in which it began. */
  function StartedJobs(log: seq<Entry>): seq<Job> {
    if log == [] then []
    else
      var e := log[|log| - 1];
      StartedJobs(log[..|log| - 1]) + if e.Started? then [e.job] else []
  }

  /** The jobs that still wait in the queue. */
  ghost function WaitingJobs(s: State): seq<Job> {
    var waiting := if Running(s) then s.queue[1..] else s.queue;
    seq(|waiting|, i requires 0 <= i < |waiting| => waiting[i].job)
  }

  lemma {:induction false} StartedPrefix(log: seq<Entry>, appended: seq<Job>)
    requires SerialLog(log, appended) && (|log| + 1) / 2 <= |appended|
    ensures StartedJobs(log) == appended[..(|log| + 1) / 2]
    decreases |log|
  {
    if log == [] {
    } else {
      var init := log[..|log| - 1];
      StartedPrefix(init, appended);
      assert InPlace(log[|log| - 1], |log| - 1, appended);
      if |log| % 2 == 1 {
        assert appended[..(|log| + 1) / 2] == appended[..(|init| + 1) / 2] + [appended[|log| / 2]];
      }
    }
  }

  /** No action is started twice or ended twice, and none is started while another one runs. */
  ghost predicate OneAtATime(log: seq<Entry>) {
    && (forall i, j :: 0 <= i < j < |log| && log[i].id == log[j].id ==>
          j == i + 1 && log[i].Started? && log[j].Ended?)
    && (forall j :: 0 <= j < |log| && log[j].Ended? ==>
          0 < j && log[j - 1].Started? && log[j - 1].id == log[j].id)
    && (forall j :: 0 < j < |log| && log[j].Started? ==>
          log[j - 1].Ended? && log[j - 1].id + 1 == log[j].id)
  }

  lemma SerialIsOneAtATime(log: seq<Entry>, appended: seq<Job>)
    requires SerialLog(log, appended)
    ensures OneAtATime(log)
  {
    forall i, j | 0 <= i < j < |log| && log[i].id == log[j].id
      ensures j == i + 1 && log[i].Started? && log[j].Ended?
    {
      assert InPlace(log[i], i, appended) && InPlace(log[j], j, appended);
    }
    forall j | 0 <= j < |log| && log[j].Ended?
      ensures 0 < j && log[j - 1].Started? && log[j - 1].id == log[j].id
    {
      assert InPlace(log[j], j, appended);
      assert InPlace(log[j - 1], j - 1, appended);
    }
    forall j | 0 < j < |log| && log[j].Started?
      ensures log[j - 1].Ended? && log[j - 1].id + 1 == log[j].id
    {
      assert InPlace(log[j], j, appended) && InPlace(log[j - 1], j - 1, appended);
    }
  }

  /**
   The history of every run: each action is started at most once and ended at most once, right
   after its start and before any other start, in the order in which the actions were appended, and
   none is lost. An end by exit carries the exit status of the very child forked for that action.
   */
  lemma SerialHistory(now: real, events: seq<Event>)
    requires Legal(Init(now), events)
    ensures Run(Init(now), events).Ok?
    ensures var t := Run(Init(now), events).value;
      && OneAtATime(t.log)
      && StartedJobs(t.log) + WaitingJobs(t) == t.appended
      && (forall j :: 0 <= j < |t.log| && t.log[j].Ended? && t.log[j].how.Completed? ==>
            t.log[j].id in t.os.fate && t.os.fate[t.log[j].id] == t.log[j].how.status)
  {
    RunKeeps(Init(now), events);
    var t := Run(Init(now), events).value;
    SerialIsOneAtATime(t.log, t.appended);
    StartedThenWaiting(t);
  }

  lemma StartedThenWaiting(s: State)
    requires Inv(s)
    ensures StartedJobs(s.log) + WaitingJobs(s) == s.appended
  {
    StartedPrefix(s.log, s.appended);
  }

  /** The counters of the status page, at every point of every run. */
  lemma CountersConserved(now: real, events: seq<Event>)
    requires Legal(Init(now), events)
    ensures Run(Init(now), events).Ok?
    ensures var t := Run(Init(now), events).value;
      && |t.appended| == t.executed + |WaitingJobs(t)|
      && t.executed == Tally(t.log, GoodEnd) + t.failed + Tally(t.log, KillEnd) + (if Running(t) then 1 else 0)
      && t.failed == Tally(t.log, BadEnd)
      && t.failed <= t.executed <= |t.appended|
  {
    RunKeeps(Init(now), events);
  }

  ghost predicate SomeKilled(log: seq<Entry>) {
    exists k :: 0 <= k < |log| && log[k].Ended? && log[k].how.Killed?
  }

  lemma {:induction false} KilledTally(log: seq<Entry>)
    ensures Tally(log, KillEnd) == 0 <==> !SomeKilled(log)
  {
    if log == [] {
    } else {
      var n := |log| - 1;
      KilledTally(log[..n]);
      KilledOneMore(log[..n], log[n]);
      assert log[..n] + [log[n]] == log;
    }
  }

  lemma KilledOneMore(log: seq<Entry>, e: Entry)
    ensures SomeKilled(log + [e]) <==> SomeKilled(log) || (e.Ended? && e.how.Killed?)
  {
    if k :| 0 <= k < |log| && log[k].Ended? && log[k].how.Killed? {
      assert (log + [e])[k] == log[k];
    }
    assert (log + [e])[|log|] == e;
  }

  /** Only the kill event kills an action, and it always does. */
  lemma StepKills(s: State, e: Event)
    requires Inv(s) && Enabled(s, e)
    ensures Step(s, e).Ok?
    ensures SomeKilled(Step(s, e).value.log) <==> SomeKilled(s.log) || e.KillEvent?
  {
    StepKeeps(s, e);
    match e
    case ExecEvent(_, throws) =>
      var started := Started(s.queue[0].id, s.queue[0].job);
      KilledOneMore(s.log, started);
      KilledOneMore(s.log + [started], Ended(s.queue[0].id, if throws then Threw else Returned));
    case KillEvent => KilledOneMore(s.log, Ended(s.queue[0].id, Killed));
    case SigchldEvent(order) =>
      SigchldKeeps(s, order);
      if HeadExited(s) {
        KilledOneMore(s.log, Ended(s.queue[0].id, Completed(s.os.fate[s.queue[0].id])));
      }
    case _ =>
  }

  lemma {:induction false} RunKills(s: State, events: seq<Event>)
    requires Inv(s) && Legal(s, events)
    ensures Run(s, events).Ok?
    ensures SomeKilled(Run(s, events).value.log) <==> SomeKilled(s.log) || KillEvent in events
    decreases |events|
  {
    if events == [] {
    } else {
      StepKeeps(s, events[0]);
      StepKills(s, events[0]);
      RunKills(Step(s, events[0]).value, events[1..]);
      assert KillEvent in events <==> events[0] == KillEvent || KillEvent in events[1..];
    }
  }

  /**
   The status page calls the counter "failed", but it is not the number of actions that have ended
   badly: it is if and only if the kill event was never dispatched, because its callback counts nothing.
   */
  lemma FailedMeansBadIff(now: real, events: seq<Event>)
    requires Legal(Init(now), events)
    ensures Run(Init(now), events).Ok?
    ensures var t := Run(Init(now), events).value;
      t.failed == Removed(t) - Tally(t.log, GoodEnd) <==> KillEvent !in events
  {
    RunKeeps(Init(now), events);
    RunKills(Init(now), events);
    KilledTally(Run(Init(now), events).value.log);
  }

  /** The two differ: a run in which the one action is killed leaves the counter at 0. */
  lemma KilledIsNotFailed() returns (t: State)
    ensures Reachable(t) && t.executed == 1 && t.failed == 0 && t.queue == [] && SomeKilled(t.log)
  {
    var job := Job("deploy", Command("/bin/deploy", [], [], 0));
    ReachableInit(0.0);
    t := After(Init(0.0), AppendEvent(job));
    assert t.queue == [Item(0, job, NO_PID, false)];
    t := After(t, ExecEvent(1, false));
    assert t.queue == [Item(0, job, 1, true)] && t.log == [Started(0, job)];
    t := TimedOut(t);
    assert t.log[1].how.Killed?;
  }

  /** From a timeout that is due on to the kill. */
  lemma TimedOut(s: State) returns (t: State)
    requires Reachable(s) && Running(s) && s.timeoutEv == Some(s.now)
    ensures Reachable(t) && t.queue == s.queue[1..] && t.os == s.os
    ensures t.executed == s.executed && t.failed == s.failed && t.log == s.log + [Ended(s.queue[0].id, Killed)]
  {
    ReachableInv(s);
    t := After(s, TimeoutEvent);
    t := After(t, Tick(1.0));
    t := After(t, KillEvent);
  }

  lemma After(s: State, e: Event) returns (t: State)
    requires Reachable(s) && Enabled(s, e)
    ensures Reachable(t) && Step(s, e) == Ok(t)
  {
    ReachableStep(s, e);
    t := Step(s, e).value;
  }

  // ---------------------------------------------------------------- draining

  /** Three dispatches at most are needed for an action; a started head has used one, or two. */
  ghost function Measure(s: State): int {
    3 * |s.queue| - (if s.timeoutEv.Some? then 1 else if s.killEv.Some? then 2 else 0)
  }

  predicate Dispatch(e: Event) {
    e.ExecEvent? || e.TimeoutEvent? || e.KillEvent?
  }

  function Dispatches(events: seq<Event>): nat {
    if events == [] then 0 else (if Dispatch(events[0]) then 1 else 0) + Dispatches(events[1..])
  }

  function Appends(events: seq<Event>): nat {
    if events == [] then 0 else (if events[0].AppendEvent? then 1 else 0) + Appends(events[1..])
  }

  /** Dispatches and the exit of the running child lower the measure, only appending raises it. */
  lemma StepMeasure(s: State, e: Event)
    requires Inv(s) && Enabled(s, e)
    ensures Step(s, e).Ok?
    ensures var t := Step(s, e).value;
      && (e.AppendEvent? ==> Measure(t) == Measure(s) + 3)
      && (Dispatch(e) || (e.SigchldEvent? && HeadExited(s)) ==> Measure(t) < Measure(s))
      && (e.Tick? || e.ChildExit? || (e.SigchldEvent? && !HeadExited(s)) ==> Measure(t) == Measure(s))
  {
    StepKeeps(s, e);
    if e.SigchldEvent? {
      SigchldKeeps(s, e.order);
    }
  }

  lemma {:induction false} DispatchesBounded(s: State, events: seq<Event>)
    requires Inv(s) && Legal(s, events)
    ensures Run(s, events).Ok?
    ensures 0 <= Measure(Run(s, events).value) <= Measure(s) + 3 * Appends(events) - Dispatches(events)
    decreases |events|
  {
    if events == [] {
      MeasureNat(s);
    } else {
      StepKeeps(s, events[0]);
      StepMeasure(s, events[0]);
      DispatchesBounded(Step(s, events[0]).value, events[1..]);
    }
  }

  lemma MeasureNat(s: State)
    requires Inv(s)
    ensures 0 <= Measure(s) && (Measure(s) == 0 <==> s.queue == [])
  {
  }

  // ---------------------------------------------------------------- bounded waiting

  function Max(a: real, b: real): real {
    if a < b then b else a
  }

  /** The time an action can take from its start: its timeout and one second until the kill. */
  function Budget(job: Job): real {
    if job.body.Command? then Max(job.body.timeout as real, 0.0) + 1.0 else 0.0
  }

  /** When the head has left the queue at the latest. */
  ghost function HeadGoneBy(s: State): real
    requires s.queue != []
  {
    if s.timeoutEv.Some? then Max(s.timeoutEv.value, s.now) + 1.0
    else if s.killEv.Some? then Max(s.killEv.value, s.now)
    else s.now + Budget(s.queue[0].job)
  }

  /** The budgets of the items 1 to i. */
  ghost function Budgets(queue: seq<Item>, i: nat): real
    requires i < |queue|
  {
    if i == 0 then 0.0 else Budgets(queue, i - 1) + Budget(queue[i].job)
  }

  /** When item i has left the queue at the latest, and when it is started at the latest. */
  ghost function GoneBy(s: State, i: nat): real
    requires i < |s.queue|
  {
    HeadGoneBy(s) + Budgets(s.queue, i)
  }

  ghost function StartedBy(s: State, i: nat): real
    requires i < |s.queue|
  {
    if i == 0 then s.now else GoneBy(s, i - 1)
  }

  /** Events are dispatched in time: time does not pass while execEv is active or a timer is due. */
  ghost predicate InTime(s: State, e: Event) {
    e.Tick? && e.seconds > 0.0 ==>
      && !s.execEv
      && (s.timeoutEv.Some? ==> s.now + e.seconds <= s.timeoutEv.value)
      && (s.killEv.Some? ==> s.now + e.seconds <= s.killEv.value)
  }

  ghost predicate Timely(s: State, events: seq<Event>)
    requires Legal(s, events)
    decreases |events|
  {
    events == [] ||
    (InTime(s, events[0]) && (Step(s, events[0]).Ok? ==> Timely(Step(s, events[0]).value, events[1..])))
  }

  lemma {:induction false} BudgetsShift(queue: seq<Item>, i: nat)
    requires 0 < i < |queue|
    ensures Budgets(queue, i) == Budget(queue[1].job) + Budgets(queue[1..], i - 1)
  {
    if i == 1 {
    } else {
      BudgetsShift(queue, i - 1);
    }
  }

  lemma {:induction false} BudgetsSame(q: seq<Item>, r: seq<Item>, i: nat)
    requires i < |q| && i < |r|
    requires forall k :: 0 <= k <= i ==> q[k].job == r[k].job
    ensures Budgets(q, i) == Budgets(r, i)
  {
    if i == 0 {
    } else {
      BudgetsSame(q, r, i - 1);
    }
  }

  lemma {:induction false} BudgetsGrow(queue: seq<Item>, i: nat)
    requires i < |queue|
    ensures 0.0 <= Budgets(queue, i)
  {
    if i == 0 {
    } else {
      BudgetsGrow(queue, i - 1);
    }
  }

  /** t has the jobs of s and perhaps more, and no later time by which the head is gone. */
  ghost predicate Stays(s: State, t: State) {
    && Removed(t) == Removed(s)
    && |s.queue| <= |t.queue|
    && (forall k :: 0 <= k < |s.queue| ==> t.queue[k].job == s.queue[k].job)
    && (s.queue != [] ==> HeadGoneBy(t) <= HeadGoneBy(s))
    && (s.queue != [] && !Running(s) && !Running(t) ==> t.now == s.now)
  }

  /** t is s without the head, at the same time and before anything else is started. */
  ghost predicate Pops(s: State, t: State) {
    && Removed(t) == Removed(s) + 1
    && s.queue != [] && t.queue == s.queue[1..]
    && t.now == s.now && t.timeoutEv.None? && t.killEv.None? && !Running(t)
  }

  lemma StepQueue(s: State, e: Event)
    requires Inv(s) && Enabled(s, e) && InTime(s, e)
    ensures Step(s, e).Ok?
    ensures Stays(s, Step(s, e).value) || Pops(s, Step(s, e).value)
  {
    match e
    case AppendEvent(job) => assert Stays(s, Append(s, job));
    case ExecEvent(pid, throws) => ExecQueue(s, pid, throws);
    case SigchldEvent(order) => SigchldQueue(s, order);
    case KillEvent => KillKeeps(s);
    case TimeoutEvent => TimeoutQueue(s);
    case ChildExit(pid, status) => assert Stays(s, s.(os := s.os.Exit(pid, status)));
    case Tick(d) => assert Stays(s, s.(now := s.now + d));
  }

  lemma TimeoutQueue(s: State)
    requires Inv(s) && Enabled(s, TimeoutEvent)
    ensures TerminateCurrent(s).Ok? && Stays(s, TerminateCurrent(s).value)
  {
    TimeoutKeeps(s);
  }

  lemma ExecQueue(s: State, pid: int, throws: bool)
    requires Inv(s) && Enabled(s, ExecEvent(pid, throws))
    ensures ExecuteNext(s, pid, throws).Ok?
    ensures Stays(s, ExecuteNext(s, pid, throws).value) || Pops(s, ExecuteNext(s, pid, throws).value)
  {
    if s.queue[0].job.body.Command? {
      StartKeeps(s, pid, throws);
      assert Stays(s, ExecuteNext(s, pid, throws).value);
    } else {
      CallKeeps(s, pid, throws);
      assert Pops(s, ExecuteNext(s, pid, throws).value);
    }
  }

  lemma SigchldQueue(s: State, order: seq<int>)
    requires Inv(s) && Enumerates(order, s.os.zombies.Keys)
    ensures Sigchld(s, order).Ok?
    ensures Stays(s, Sigchld(s, order).value) || Pops(s, Sigchld(s, order).value)
  {
    SigchldKeeps(s, order);
  }

  // ---------------------------------------------------------------- never stuck

  lemma {:induction false} FreshPid(pids: set<int>) returns (pid: int)
    ensures pid > 0 && forall p :: p in pids ==> p < pid
  {
    if p: int :| p in pids {
      var q := FreshPid(pids - {p});
      pid := if p < q then q else p + 1;
      assert forall r :: r in pids ==> r == p || r in pids - {p};
    } else {
      pid := 1;
    }
  }

  /** How long to wait for the next dispatch, and which one it is. */
  ghost function Wait(s: State): real {
    if s.timeoutEv.Some? then Max(s.timeoutEv.value, s.now) - s.now
    else if s.killEv.Some? then Max(s.killEv.value, s.now) - s.now
    else 0.0
  }

  ghost function Next(s: State, pid: int): Event {
    if s.execEv then ExecEvent(pid, false) else if s.timeoutEv.Some? then TimeoutEvent else KillEvent
  }

  /** A queue that is not empty always has an event that moves it, in time. */
  lemma NeverStuck(s: State, pid: int)
    requires Inv(s) && s.queue != [] && s.os.Free(pid)
    ensures Enabled(s, Tick(Wait(s))) && InTime(s, Tick(Wait(s)))
    ensures Good(Step(s, Tick(Wait(s))))
    ensures var t := Step(s, Tick(Wait(s))).value;
      && Enabled(t, Next(s, pid)) && InTime(t, Next(s, pid))
      && Good(Step(t, Next(s, pid))) && Measure(Step(t, Next(s, pid)).value) < Measure(s)
  {
    StepKeeps(s, Tick(Wait(s)));
    var t := Step(s, Tick(Wait(s))).value;
    assert Enabled(t, Next(s, pid));
    StepKeeps(t, Next(s, pid));
    StepMeasure(t, Next(s, pid));
  }

  /**
   Nothing but the timers is needed: from every reachable state, timely ticks and dispatches empty
   the queue even if no child ever exits and no SIGCHLD is ever delivered.
   */
  lemma {:induction false} DrainsAlone(s: State) returns (events: seq<Event>)
    requires Inv(s)
    ensures Legal(s, events) && Timely(s, events)
    ensures Run(s, events).Ok? && Run(s, events).value.queue == []
    ensures forall e :: e in events ==> Dispatch(e) || e.Tick?
    decreases Measure(s)
  {
    MeasureNat(s);
    if s.queue == [] {
      events := [];
    } else {
      var pid := FreshPid(s.os.running.Keys + s.os.zombies.Keys);
      var tick, next := Tick(Wait(s)), Next(s, pid);
      NeverStuck(s, pid);
      var t := Step(s, tick).value;
      var u := Step(t, next).value;
      var rest := DrainsAlone(u);
      assert ([next] + rest)[1..] == rest;
      assert Legal(t, [next] + rest) && Timely(t, [next] + rest);
      events := [tick] + ([next] + rest);
      assert events[1..] == [next] + rest;
    }
  }

  // ---------------------------------------------------------------- the bound

  /** One event in time never moves the time by which an item that stays is started or gone. */
  lemma BoundsKept(s: State, t: State, i: nat)
    requires i < |s.queue| && (Stays(s, t) || Pops(s, t))
    ensures s.now <= GoneBy(s, i) && s.now <= StartedBy(s, i)
    ensures var j := i - (Removed(t) - Removed(s));
      0 <= j ==>
        && j < |t.queue| && GoneBy(t, j) <= GoneBy(s, i)
        && (Begun(s) <= Removed(s) + i && Begun(t) <= Removed(s) + i ==> StartedBy(t, j) <= StartedBy(s, i))
  {
    BudgetsGrow(s.queue, i);
    if i > 0 {
      BudgetsGrow(s.queue, i - 1);
    }
    if Stays(s, t) {
      BudgetsSame(s.queue, t.queue, i);
      if i > 0 {
        BudgetsSame(s.queue, t.queue, i - 1);
      }
    } else if i > 0 {
      BudgetsShift(s.queue, i);
      if i > 1 {
        BudgetsShift(s.queue, i - 1);
      }
    }
  }

  lemma {:induction false} NothingComesBack(s: State, events: seq<Event>)
    requires Inv(s) && Legal(s, events) && Timely(s, events)
    ensures Run(s, events).Ok?
    ensures Removed(s) <= Removed(Run(s, events).value) && Begun(s) <= Begun(Run(s, events).value)
    decreases |events|
  {
    if events == [] {
    } else {
      StepKeeps(s, events[0]);
      StepBegun(s, events[0]);
      NothingComesBack(Step(s, events[0]).value, events[1..]);
    }
  }

  lemma StepBegun(s: State, e: Event)
    requires Inv(s) && Enabled(s, e)
    ensures Step(s, e).Ok?
    ensures Removed(s) <= Removed(Step(s, e).value) && Begun(s) <= Begun(Step(s, e).value)
  {
    StepKeeps(s, e);
    if e.SigchldEvent? {
      SigchldKeeps(s, e.order);
    }
  }

  lemma FirstStep(s: State, events: seq<Event>) returns (t: State)
    requires Inv(s) && Legal(s, events) && Timely(s, events) && events != []
    ensures Good(Ok(t)) && (Stays(s, t) || Pops(s, t)) && Begun(s) <= Begun(t)
    ensures Legal(t, events[1..]) && Timely(t, events[1..]) && Run(s, events) == Run(t, events[1..])
  {
    StepQueue(s, events[0]);
    StepBegun(s, events[0]);
    StepKeeps(s, events[0]);
    t := Step(s, events[0]).value;
  }

  /** If the item at position i of s is still in the queue of t, or still waits, it is in time. */
  ghost predicate Bounded(s: State, t: State, i: nat)
    requires i < |s.queue|
  {
    && (Removed(t) <= Removed(s) + i ==> t.now <= GoneBy(s, i))
    && (Begun(t) <= Removed(s) + i ==> t.now <= StartedBy(s, i))
  }

  lemma BoundStep(s: State, t: State, u: State, i: nat, j: nat)
    requires i < |s.queue| && (Stays(s, t) || Pops(s, t))
    requires Begun(s) <= Begun(t) <= Begun(u) && j == i - (Removed(t) - Removed(s))
    requires j < |t.queue| && Bounded(t, u, j)
    ensures Bounded(s, u, i)
  {
    BoundsKept(s, t, i);
  }

  /**
   Bounded waiting, whatever the children do and even if SIGCHLD is lost: in a timely run, the item
   at position i is in the queue no longer than until GoneBy(s, i), and it waits to be started no
   longer than until StartedBy(s, i).
   */
  lemma {:induction false} BoundedWait(s: State, events: seq<Event>, i: nat)
    requires Inv(s) && i < |s.queue| && Legal(s, events) && Timely(s, events)
    ensures Run(s, events).Ok?
    ensures Bounded(s, Run(s, events).value, i)
    decreases |events|
  {
    if events == [] {
      BoundsKept(s, s, i);
    } else {
      var t := FirstStep(s, events);
      var j := i - (Removed(t) - Removed(s));
      NothingComesBack(t, events[1..]);
      if 0 <= j {
        BoundsKept(s, t, i);
        BoundedWait(t, events[1..], j);
        BoundStep(s, t, Run(t, events[1..]).value, i, j);
      }
    }
  }

  // ---------------------------------------------------------------- the time of a kill

  datatype HeadEnd = HeadEnd(at: real, how: How)

  /** When and how the action at the head of s leaves the queue, if it does so in the run. */
  ghost function EndOfHead(s: State, events: seq<Event>): Option<HeadEnd>
    requires Legal(s, events)
    decreases |events|
  {
    if events == [] || Step(s, events[0]).Err? then None
    else
      var t := Step(s, events[0]).value;
      if |t.queue| >= |s.queue| || t.log == [] || t.log[|t.log| - 1].Started? then EndOfHead(t, events[1..])
      else Some(HeadEnd(s.now, t.log[|t.log| - 1].how))
  }

  /** SIGCHLD is handled while the head's child waits to be reaped, before the kill event is dispatched. */
  ghost predicate ReapedFirst(s: State, events: seq<Event>)
    requires Legal(s, events)
    decreases |events|
  {
    events != [] && Step(s, events[0]).Ok? && events[0] != KillEvent &&
    ((events[0].SigchldEvent? && HeadExited(s)) || ReapedFirst(Step(s, events[0]).value, events[1..]))
  }

  /** A running head either stays, with the same time left, or is killed when that is up, or is reaped. */
  lemma RunningStep(s: State, e: Event)
    requires Inv(s) && Enabled(s, e) && InTime(s, e) && Running(s)
    ensures Good(Step(s, e))
    ensures var t := Step(s, e).value;
      if e.KillEvent? then
        |t.queue| < |s.queue| && t.log == s.log + [Ended(s.queue[0].id, Killed)] && s.now == HeadGoneBy(s)
      else if e.SigchldEvent? && HeadExited(s) then
        |t.queue| < |s.queue| && t.log == s.log + [Ended(s.queue[0].id, Completed(s.os.fate[s.queue[0].id]))]
      else
        |t.queue| >= |s.queue| && Running(t) && HeadGoneBy(t) == HeadGoneBy(s)
  {
    StepKeeps(s, e);
    if e.SigchldEvent? {
      SigchldKeeps(s, e.order);
    }
  }

  /** How the head of s leaves the queue, if it does: due is when it is killed, if it is not reaped first. */
  ghost predicate EndsBy(s: State, events: seq<Event>, due: real)
    requires Legal(s, events)
  {
    match EndOfHead(s, events)
    case None => Run(s, events).Ok? && Run(s, events).value.now <= due && !ReapedFirst(s, events)
    case Some(HeadEnd(at, how)) =>
      if ReapedFirst(s, events) then how.Completed? && at <= due else how.Killed? && at == due
  }

  /**
   A timeout kills: in a timely run, an action whose timer is set to T is killed exactly one second
   after that, if and only if its child was not reaped before. Until then it stays.
   */
  lemma {:induction false} KilledOnTime(s: State, events: seq<Event>)
    requires Inv(s) && Running(s) && Legal(s, events) && Timely(s, events)
    ensures EndsBy(s, events, if s.timeoutEv.Some? then Max(s.timeoutEv.value, s.now) + 1.0 else Max(s.killEv.value, s.now))
    decreases |events|
  {
    if events == [] {
    } else {
      RunningStep(s, events[0]);
      var t := Step(s, events[0]).value;
      if |t.queue| >= |s.queue| {
        KilledOnTime(t, events[1..]);
        EndsLater(s, events, t, HeadGoneBy(s));
      }
    }
  }

  lemma EndsLater(s: State, events: seq<Event>, t: State, due: real)
    requires events != [] && Legal(s, events) && Step(s, events[0]) == Ok(t) && |t.queue| >= |s.queue|
    requires events[0] != KillEvent && !(events[0].SigchldEvent? && HeadExited(s))
    requires EndsBy(t, events[1..], due)
    ensures EndsBy(s, events, due)
  {
  }

  // ---------------------------------------------------------------- exits that are noticed at once

  /** A child that has exited well is killed all the same if SIGCHLD is not handled before the timers. */
  lemma LostExit() returns (t: State)
    ensures Reachable(t) && 0 in t.os.fate && t.os.fate[0] == Exited(0)
    ensures t.log == [Started(0, Job("deploy", Command("/bin/deploy", [], [], 0))), Ended(0, Killed)]
  {
    var job := Job("deploy", Command("/bin/deploy", [], [], 0));
    ReachableInit(0.0);
    t := After(Init(0.0), AppendEvent(job));
    assert t.queue == [Item(0, job, NO_PID, false)];
    t := After(t, ExecEvent(1, false));
    assert t.queue == [Item(0, job, 1, true)] && t.os.running == map[1 := 0];
    assert t.log == [Started(0, job)];
    t := After(t, ChildExit(1, Exited(0)));
    t := TimedOut(t);
  }

  /** SIGCHLD is handled before time passes: no time passes while an exited child is not reaped. */
  ghost predicate Prompt(s: State, events: seq<Event>)
    requires Legal(s, events)
    decreases |events|
  {
    events == [] ||
    (&& (events[0].Tick? && events[0].seconds > 0.0 ==> s.os.zombies == map[])
     && (Step(s, events[0]).Ok? ==> Prompt(Step(s, events[0]).value, events[1..])))
  }

  datatype HeadExit = HeadExit(at: real, status: ExitStatus)

  /** When and how the child of the head of s exits, if it does so before the head leaves the queue. */
  ghost function ExitOfHead(s: State, events: seq<Event>): Option<HeadExit>
    requires Legal(s, events)
    decreases |events|
  {
    if events == [] || s.queue == [] || Step(s, events[0]).Err? then None
    else if events[0].ChildExit? && events[0].pid == s.queue[0].pid then Some(HeadExit(s.now, events[0].status))
    else if |Step(s, events[0]).value.queue| < |s.queue| then None
    else ExitOfHead(Step(s, events[0]).value, events[1..])
  }

  /** The head stays, and its child does not change. */
  ghost predicate SameHead(s: State, t: State) {
    && Running(s) && Running(t) && |t.queue| >= |s.queue|
    && t.queue[0].pid == s.queue[0].pid && t.queue[0].id == s.queue[0].id
    && (s.queue[0].pid in s.os.running ==> t.queue[0].pid in t.os.running)
    && (HeadExited(s) && s.queue[0].id in s.os.fate ==>
          HeadExited(t) && s.queue[0].id in t.os.fate && t.os.fate[s.queue[0].id] == s.os.fate[s.queue[0].id])
  }

  lemma HeadStays(s: State, e: Event)
    requires Inv(s) && Enabled(s, e) && Running(s)
    requires !e.KillEvent? && !(e.SigchldEvent? && HeadExited(s)) && !(e.ChildExit? && e.pid == s.queue[0].pid)
    ensures Good(Step(s, e)) && SameHead(s, Step(s, e).value)
    ensures e.Tick? || Step(s, e).value.now == s.now
  {
    StepKeeps(s, e);
    match e
    case SigchldEvent(order) => SigchldKeeps(s, order);
    case ChildExit(pid, status) => OtherExits(s, pid, status);
    case _ =>
  }

  lemma OtherExits(s: State, pid: int, status: ExitStatus)
    requires Inv(s) && pid in s.os.running && Running(s) && pid != s.queue[0].pid
    ensures SameHead(s, s.(os := s.os.Exit(pid, status)))
  {
  }

  ghost predicate EndsAt(s: State, events: seq<Event>, now: real, status: ExitStatus)
    requires Legal(s, events)
  {
    match EndOfHead(s, events)
    case None => Run(s, events).Ok? && Run(s, events).value.now == now
    case Some(HeadEnd(at, how)) => at == now && (how.Killed? || how == Completed(status))
  }

  /** Once the child of the head has exited, the action ends without any more time passing. */
  lemma {:induction false} EndsAtOnce(s: State, events: seq<Event>)
    requires Inv(s) && HeadExited(s) && s.queue[0].id in s.os.fate
    requires Legal(s, events) && Timely(s, events) && Prompt(s, events)
    ensures EndsAt(s, events, s.now, s.os.fate[s.queue[0].id])
    decreases |events|
  {
    if events == [] {
    } else {
      var status := s.os.fate[s.queue[0].id];
      RunningStep(s, events[0]);
      var t := Step(s, events[0]).value;
      if events[0].KillEvent? {
        EndsNow(s, events, t, Killed, status);
      } else if events[0].SigchldEvent? {
        EndsNow(s, events, t, Completed(status), status);
      } else {
        ExitedStays(s, events[0]);
        EndsAtOnce(t, events[1..]);
        EndsAtLater(s, events, t, s.now, status);
      }
    }
  }

  /** An exited child of the head stays what it is, and so does the time if SIGCHLD is handled promptly. */
  lemma ExitedStays(s: State, e: Event)
    requires Inv(s) && HeadExited(s) && s.queue[0].id in s.os.fate
    requires Enabled(s, e) && !e.KillEvent? && !e.SigchldEvent?
    requires e.Tick? && e.seconds > 0.0 ==> s.os.zombies == map[]
    ensures Good(Step(s, e)) && SameHead(s, Step(s, e).value) && Step(s, e).value.now == s.now
  {
    assert e.ChildExit? ==> e.pid != s.queue[0].pid;
    HeadStays(s, e);
  }

  lemma EndsNow(s: State, events: seq<Event>, t: State, how: How, status: ExitStatus)
    requires events != [] && Legal(s, events) && Step(s, events[0]) == Ok(t) && |t.queue| < |s.queue|
    requires s.queue != [] && t.log == s.log + [Ended(s.queue[0].id, how)] && (how.Killed? || how == Completed(status))
    ensures EndsAt(s, events, s.now, status)
  {
  }

  lemma EndsAtLater(s: State, events: seq<Event>, t: State, now: real, status: ExitStatus)
    requires events != [] && Legal(s, events) && Step(s, events[0]) == Ok(t) && |t.queue| >= |s.queue|
    requires EndsAt(t, events[1..], now, status)
    ensures EndsAt(s, events, now, status)
  {
  }

  /** How an action ends if SIGCHLD is handled before time passes: as its child did, or else by the kill. */
  ghost predicate EndsAsChild(s: State, events: seq<Event>, due: real)
    requires Legal(s, events)
  {
    match EndOfHead(s, events)
    case None => Run(s, events).Ok? && (ExitOfHead(s, events).Some? ==> Run(s, events).value.now == ExitOfHead(s, events).value.at)
    case Some(HeadEnd(at, how)) =>
      match ExitOfHead(s, events)
      case None => how.Killed? && at == due
      case Some(HeadExit(exit, status)) => at == exit && (how == Completed(status) || (how.Killed? && exit == due))
  }

  /**
   If SIGCHLD is handled before time passes, a started action ends at the very time at which its child
   exits, with the exit status of that child. It is killed only if the child has not exited before the
   kill is due.
   */
  lemma {:induction false} PromptlyReaped(s: State, events: seq<Event>)
    requires Inv(s) && Running(s) && s.queue[0].pid in s.os.running
    requires Legal(s, events) && Timely(s, events) && Prompt(s, events)
    ensures EndsAsChild(s, events, HeadGoneBy(s))
    decreases |events|
  {
    if events == [] {
    } else {
      var e := events[0];
      RunningStep(s, e);
      var t := Step(s, e).value;
      if e.ChildExit? && e.pid == s.queue[0].pid {
        KilledOnTime(s, events);
        EndsAtOnce(t, events[1..]);
      } else if !e.KillEvent? {
        HeadStays(s, e);
        PromptlyReaped(t, events[1..]);
        EndsAsChildLater(s, events, t, HeadGoneBy(s));
      }
    }
  }

  lemma EndsAsChildLater(s: State, events: seq<Event>, t: State, due: real)
    requires events != [] && Legal(s, events) && Step(s, events[0]) == Ok(t) && s.queue != [] && |t.queue| >= |s.queue|
    requires !(events[0].ChildExit? && events[0].pid == s.queue[0].pid)
    requires EndsAsChild(t, events[1..], due)
    ensures EndsAsChild(s, events, due)
  {
  }
}
