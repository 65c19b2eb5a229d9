/**
 When the timers of an action fire, counted from its start and its own timeout, and what the counters
 count, in terms of how the actions ended.
 */
module Outcomes {
  import opened Wrappers
  import opened Kernel
  import opened Scheduler
  import opened SchedulerInvariant
  import opened SchedulerRuns

  // ---------------------------------------------------------------- the counters

  predicate EndsWell(e: Entry) {
    e.Ended? && (e.how == Returned || e.how == Completed(Exited(0)))
  }

  predicate EndsBadly(e: Entry) {
    e.Ended? &&
    match e.how
    case Threw => true
    case Completed(Signalled(_)) => true
    case Completed(Exited(code)) => code != 0
    case _ => false
  }

  predicate EndsKilled(e: Entry) {
    e.Ended? && e.how == Killed
  }

  function Number(log: seq<Entry>, f: Entry -> bool): nat {
    if log == [] then 0
    else Number(log[..|log| - 1], f) + if f(log[|log| - 1]) then 1 else 0
  }

  lemma {:induction false} TallyIsNumber(log: seq<Entry>)
    ensures Tally(log, GoodEnd) == Number(log, EndsWell)
    ensures Tally(log, BadEnd) == Number(log, EndsBadly)
    ensures Tally(log, KillEnd) == Number(log, EndsKilled)
  {
    if log == [] {
    } else {
      TallyIsNumber(log[..|log| - 1]);
    }
  }

  /**
   At every point of every run, the counter of failures is the number of functions that threw, of
   children that were ended by a signal and of children that exited with another code than 0; and the
   counter of executed actions is the number of all ends, and of the running child.
   */
  lemma FailuresCounted(now: real, events: seq<Event>)
    requires Legal(Init(now), events)
    ensures Run(Init(now), events).Ok?
    ensures var t := Run(Init(now), events).value;
      && t.failed == Number(t.log, EndsBadly)
      && t.executed == Number(t.log, EndsWell) + Number(t.log, EndsBadly) + Number(t.log, EndsKilled) + if Running(t) then 1 else 0
  {
    RunKeeps(Init(now), events);
    TallyIsNumber(Run(Init(now), events).value.log);
  }

  /** The exit of the running head counts as a failure exactly if it is by a signal or with another code than 0. */
  lemma ExitCounted(s: State, order: seq<int>)
    requires Inv(s) && HeadExited(s) && Enumerates(order, s.os.zombies.Keys)
    ensures Sigchld(s, order).Ok? && s.queue[0].id in s.os.fate
    ensures var t, fate := Sigchld(s, order).value, s.os.fate[s.queue[0].id];
      && t.log == s.log + [Ended(s.queue[0].id, Completed(fate))]
      && t.executed == s.executed
      && t.failed == s.failed + match fate
                                case Signalled(_) => 1
                                case Exited(code) => if code != 0 then 1 else 0
  {
    SigchldKeeps(s, order);
  }

  /** A function action counts as executed, and as a failure exactly if it throws. */
  lemma FunctionCounted(s: State, pid: int, throws: bool)
    requires Inv(s) && Enabled(s, ExecEvent(pid, throws)) && s.queue[0].job.body.Function?
    ensures Step(s, ExecEvent(pid, throws)).Ok?
    ensures var t, head := Step(s, ExecEvent(pid, throws)).value, s.queue[0];
      && t.log == s.log + [Started(head.id, head.job), Ended(head.id, if throws then Threw else Returned)]
      && t.executed == s.executed + 1
      && t.failed == s.failed + if throws then 1 else 0
  {
    StepKeeps(s, ExecEvent(pid, throws));
  }

  /** Being killed counts neither way: the action was counted as executed when it was started. */
  lemma KillCounted(s: State)
    requires Inv(s) && Enabled(s, KillEvent)
    ensures Step(s, KillEvent).Ok?
    ensures var t := Step(s, KillEvent).value;
      t.log == s.log + [Ended(s.queue[0].id, Killed)] && t.executed == s.executed && t.failed == s.failed
  {
    KillKeeps(s);
  }

  // ---------------------------------------------------------------- the timers

  /** The action with the id was started, and while it runs its timers are not set before the deadline. */
  ghost predicate Guarded(s: State, id: nat, deadline: real) {
    && id < Begun(s)
    && (Removed(s) == id ==>
          && (s.timeoutEv.Some? ==> s.timeoutEv.value >= deadline)
          && (s.killEv.Some? ==> s.killEv.value >= deadline + 1.0))
  }

  lemma GuardedStep(s: State, e: Event, id: nat, deadline: real)
    requires Inv(s) && Enabled(s, e) && Guarded(s, id, deadline)
    ensures Good(Step(s, e)) && Guarded(Step(s, e).value, id, deadline)
  {
    StepKeeps(s, e);
    StepBegun(s, e);
    match e
    case SigchldEvent(order) => SigchldKeeps(s, order);
    case _ =>
  }

  lemma {:induction false} GuardedRun(s: State, events: seq<Event>, id: nat, deadline: real)
    requires Inv(s) && Legal(s, events) && Guarded(s, id, deadline)
    ensures Good(Run(s, events)) && Guarded(Run(s, events).value, id, deadline)
    decreases |events|
  {
    if events == [] {
    } else {
      GuardedStep(s, events[0], id, deadline);
      GuardedRun(Step(s, events[0]).value, events[1..], id, deadline);
    }
  }

  /** Starting a command arms its own timeout, from now on. */
  lemma StartArms(s: State, pid: int, throws: bool)
    requires Inv(s) && Enabled(s, ExecEvent(pid, throws)) && s.queue[0].job.body.Command?
    ensures Good(Step(s, ExecEvent(pid, throws)))
    ensures var t := Step(s, ExecEvent(pid, throws)).value;
      && Running(t) && Removed(t) == Removed(s) && t.now == s.now && t.killEv.None?
      && t.queue[0].id == s.queue[0].id && t.queue[0].pid == pid && t.queue[0].pid in t.os.running
      && t.timeoutEv == Some(s.now + s.queue[0].job.body.timeout as real)
  {
    StepKeeps(s, ExecEvent(pid, throws));
  }

  /** Before any timer is due, counted from the start: t is the state right after it. */
  lemma NotTooEarly(s: State, pid: int, throws: bool, t: State, events: seq<Event>)
    requires Inv(s) && Enabled(s, ExecEvent(pid, throws)) && s.queue[0].job.body.Command?
    requires Step(s, ExecEvent(pid, throws)) == Ok(t) && Legal(t, events)
    ensures Run(t, events).Ok?
    ensures var u, deadline := Run(t, events).value, s.now + s.queue[0].job.body.timeout as real;
      && (Removed(u) == Removed(s) && Enabled(u, TimeoutEvent) ==> u.now >= deadline)
      && (Removed(u) == Removed(s) && Enabled(u, KillEvent) ==> u.now >= deadline + 1.0)
  {
    StartArms(s, pid, throws);
    var deadline := s.now + s.queue[0].job.body.timeout as real;
    StartGuards(t, Removed(s), deadline);
    GuardedRun(t, events, Removed(s), deadline);
    if Removed(Run(t, events).value) == Removed(s) {
      GuardedDue(Run(t, events).value, Removed(s), deadline);
    }
  }

  lemma StartGuards(t: State, id: nat, deadline: real)
    requires Running(t) && Removed(t) == id && t.timeoutEv == Some(deadline) && t.killEv.None?
    ensures Guarded(t, id, deadline)
  {
  }

  lemma GuardedDue(u: State, id: nat, deadline: real)
    requires Guarded(u, id, deadline) && Removed(u) == id
    ensures Enabled(u, TimeoutEvent) ==> u.now >= deadline
    ensures Enabled(u, KillEvent) ==> u.now >= deadline + 1.0
  {
  }

  /** In a timely run the kill comes exactly then, counted from the start, if the child is not reaped first. */
  lemma KilledFromStart(s: State, pid: int, throws: bool, t: State, events: seq<Event>)
    requires Inv(s) && Enabled(s, ExecEvent(pid, throws)) && s.queue[0].job.body.Command?
    requires Step(s, ExecEvent(pid, throws)) == Ok(t) && Legal(t, events) && Timely(t, events)
    ensures EndsBy(t, events, s.now + Max(s.queue[0].job.body.timeout as real, 0.0) + 1.0)
  {
    StartArms(s, pid, throws);
    KilledOnTime(t, events);
  }

  /** A run that begins with an event. */
  lemma FirstThenRest(s: State, e: Event, events: seq<Event>)
    requires Inv(s) && Legal(s, [e] + events)
    ensures Enabled(s, e) && Step(s, e).Ok? && Legal(Step(s, e).value, events)
    ensures Run(s, [e] + events) == Run(Step(s, e).value, events)
    ensures Timely(s, [e] + events) ==> Timely(Step(s, e).value, events)
  {
    assert ([e] + events)[0] == e && ([e] + events)[1..] == events;
    StepKeeps(s, e);
  }

  /**
   The timers of an action, measured from its start. Whatever happens, SIGTERM does not come before
   the timeout has passed, and the kill not before one more second has. If the timers are dispatched in
   time, the kill comes exactly then, if and only if the child was not reaped before.
   */
  lemma TimedFromStart(s: State, pid: int, throws: bool, events: seq<Event>)
    requires Inv(s) && s.queue != [] && s.queue[0].job.body.Command?
    requires Legal(s, [ExecEvent(pid, throws)] + events)
    ensures Run(s, [ExecEvent(pid, throws)] + events).Ok?
    ensures var u, deadline := Run(s, [ExecEvent(pid, throws)] + events).value, s.now + s.queue[0].job.body.timeout as real;
      && (Removed(u) == Removed(s) && Enabled(u, TimeoutEvent) ==> u.now >= deadline)
      && (Removed(u) == Removed(s) && Enabled(u, KillEvent) ==> u.now >= deadline + 1.0)
    ensures Enabled(s, ExecEvent(pid, throws)) && Step(s, ExecEvent(pid, throws)).Ok?
    ensures Legal(Step(s, ExecEvent(pid, throws)).value, events)
    ensures Timely(s, [ExecEvent(pid, throws)] + events) ==>
      EndsBy(Step(s, ExecEvent(pid, throws)).value, events,
             s.now + Max(s.queue[0].job.body.timeout as real, 0.0) + 1.0)
  {
    FirstThenRest(s, ExecEvent(pid, throws), events);
    var t := Step(s, ExecEvent(pid, throws)).value;
    NotTooEarly(s, pid, throws, t, events);
    if Timely(s, [ExecEvent(pid, throws)] + events) {
      KilledFromStart(s, pid, throws, t, events);
    }
  }
}
