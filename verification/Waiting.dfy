/**
 What the action list guarantees in time, for the whole program: a run of the program is a run of the
 action list, whatever the connections do meanwhile.
 */
module Waiting {
  import opened Wrappers
  import Scheduler
  import SchedulerInvariant
  import opened SchedulerRuns
  import opened Daemon
  import Outcomes

  // ---------------------------------------------------------------- runs of the action list

  /** Two runs of the action list one after the other. */
  lemma {:induction false} RunTwice(a: Scheduler.State, first: seq<Scheduler.Event>, b: Scheduler.State, second: seq<Scheduler.Event>)
    requires Scheduler.Legal(a, first) && Scheduler.Run(a, first) == Ok(b) && Scheduler.Legal(b, second)
    ensures Scheduler.Legal(a, first + second) && Scheduler.Run(a, first + second) == Scheduler.Run(b, second)
    ensures SchedulerRuns.Timely(a, first) && SchedulerRuns.Timely(b, second) ==> SchedulerRuns.Timely(a, first + second)
    decreases |first|
  {
    if first == [] {
      assert [] + second == second;
    } else {
      assert (first + second)[1..] == first[1..] + second;
      RunTwice(Scheduler.Step(a, first[0]).value, first[1..], b, second);
    }
  }

  function Appending(jobs: seq<Scheduler.Job>): seq<Scheduler.Event> {
    if jobs == [] then [] else Appending(jobs[..|jobs| - 1]) + [Scheduler.AppendEvent(jobs[|jobs| - 1])]
  }

  lemma {:induction false} AppendingRuns(a: Scheduler.State, jobs: seq<Scheduler.Job>)
    ensures Scheduler.Legal(a, Appending(jobs)) && Scheduler.Run(a, Appending(jobs)) == Ok(Scheduler.AppendAll(a, jobs))
    ensures SchedulerRuns.Timely(a, Appending(jobs))
  {
    if jobs == [] {
    } else {
      var n := |jobs| - 1;
      var b, last := Scheduler.AppendAll(a, jobs[..n]), Scheduler.AppendEvent(jobs[n]);
      AppendingRuns(a, jobs[..n]);
      OneEvent(b, last);
      RunTwice(a, Appending(jobs[..n]), b, [last]);
    }
  }

  /** A run of one event. */
  lemma OneEvent(a: Scheduler.State, e: Scheduler.Event)
    requires Scheduler.Enabled(a, e) && Scheduler.Step(a, e).Ok?
    ensures Scheduler.Legal(a, [e]) && Scheduler.Run(a, [e]) == Scheduler.Step(a, e)
    ensures InTime(a, e) ==> SchedulerRuns.Timely(a, [e])
  {
    assert [e][1..] == [];
  }

  // ---------------------------------------------------------------- projecting

  /** What an event of the program is for the action list. */
  ghost function ActionsOf(p: Service, s: State, e: Event): seq<Scheduler.Event>
    requires Enabled(s, e)
  {
    match e
    case Finish(c) =>
      var conn := s.connections[c];
      Appending(WalkOf(p, conn.chain, conn.request, conn.message.content).jobs)
    case Act(event) => [event]
    case _ => []
  }

  ghost function Projected(p: Service, s: State, events: seq<Event>): seq<Scheduler.Event>
    requires Legal(p, s, events)
    decreases |events|
  {
    if events == [] || Step(p, s, events[0]).Err? then []
    else ActionsOf(p, s, events[0]) + Projected(p, Step(p, s, events[0]).value, events[1..])
  }

  /** The callbacks of the action list are dispatched in time. */
  ghost predicate Punctual(p: Service, s: State, events: seq<Event>)
    requires Legal(p, s, events)
    decreases |events|
  {
    events == [] ||
    (&& (events[0].Act? ==> InTime(s.actions, events[0].event))
     && (Step(p, s, events[0]).Ok? ==> Punctual(p, Step(p, s, events[0]).value, events[1..])))
  }

  lemma StepProjects(p: Service, s: State, e: Event)
    requires Enabled(s, e) && Step(p, s, e).Ok?
    ensures Scheduler.Legal(s.actions, ActionsOf(p, s, e))
    ensures Scheduler.Run(s.actions, ActionsOf(p, s, e)) == Ok(Step(p, s, e).value.actions)
    ensures (e.Act? ==> InTime(s.actions, e.event)) ==> SchedulerRuns.Timely(s.actions, ActionsOf(p, s, e))
  {
    match e
    case Finish(c) => FinishProjects(p, s, c);
    case Act(event) => OneEvent(s.actions, event);
    case Connect(c, m, request) => assert OnConnect(p, s, c, m, request).actions == s.actions;
    case Receive(c, chunk) => assert OnReceive(s, c, chunk).value.actions == s.actions;
    case Close(_) =>
  }

  lemma FinishProjects(p: Service, s: State, c: nat)
    requires c in s.connections && OnFinish(p, s, c).Ok?
    ensures var a := ActionsOf(p, s, Finish(c));
      && Scheduler.Legal(s.actions, a) && SchedulerRuns.Timely(s.actions, a)
      && Scheduler.Run(s.actions, a) == Ok(OnFinish(p, s, c).value.actions)
  {
    var conn := s.connections[c];
    AppendingRuns(s.actions, WalkOf(p, conn.chain, conn.request, conn.message.content).jobs);
  }

  /**
   A run of the program is a run of its action list: finishing a request appends its jobs, the
   callbacks of the action list are themselves, and all else leaves it alone.
   */
  lemma {:induction false} Projects(p: Service, s: State, events: seq<Event>)
    requires Legal(p, s, events) && Run(p, s, events).Ok?
    ensures Scheduler.Legal(s.actions, Projected(p, s, events))
    ensures Scheduler.Run(s.actions, Projected(p, s, events)) == Ok(Run(p, s, events).value.actions)
    ensures Punctual(p, s, events) ==> SchedulerRuns.Timely(s.actions, Projected(p, s, events))
    decreases |events|
  {
    if events == [] {
    } else {
      var t := Step(p, s, events[0]).value;
      StepProjects(p, s, events[0]);
      Projects(p, t, events[1..]);
      RunTwice(s.actions, ActionsOf(p, s, events[0]), t.actions, Projected(p, t, events[1..]));
    }
  }

  /**
   Bounded waiting for the whole program: however many connections send or finish whatever they do,
   every action that is queued is started and gone in time.
   */
  lemma ProgramWaits(p: Service, s: State, events: seq<Event>, i: nat)
    requires DaemonInv(p, s) && i < |s.actions.queue|
    requires Legal(p, s, events) && Run(p, s, events).Ok? && Punctual(p, s, events)
    ensures Bounded(s.actions, Run(p, s, events).value.actions, i)
  {
    ReachableInv(s.actions);
    Projects(p, s, events);
    BoundedWait(s.actions, Projected(p, s, events), i);
  }

  /** And the time of a kill: whatever the connections do, it is exactly a second after the timeout. */
  lemma ProgramKills(p: Service, s: State, events: seq<Event>)
    requires DaemonInv(p, s) && SchedulerInvariant.Running(s.actions)
    requires Legal(p, s, events) && Run(p, s, events).Ok? && Punctual(p, s, events)
    ensures Scheduler.Legal(s.actions, Projected(p, s, events))
    ensures EndsBy(s.actions, Projected(p, s, events), HeadGoneBy(s.actions))
  {
    ReachableInv(s.actions);
    Projects(p, s, events);
    KilledOnTime(s.actions, Projected(p, s, events));
  }

  /** Counted from its start: an action is killed when its own timeout and one second more have passed. */
  lemma ProgramKillsFromStart(p: Service, s: State, pid: int, throws: bool, t: State, events: seq<Event>)
    requires DaemonInv(p, s) && Enabled(s, Act(Scheduler.ExecEvent(pid, throws)))
    requires s.actions.queue != [] && s.actions.queue[0].job.body.Command?
    requires Step(p, s, Act(Scheduler.ExecEvent(pid, throws))) == Ok(t)
    requires Legal(p, t, events) && Run(p, t, events).Ok? && Punctual(p, t, events)
    ensures Scheduler.Legal(t.actions, Projected(p, t, events))
    ensures EndsBy(t.actions, Projected(p, t, events),
                   s.actions.now + Max(s.actions.queue[0].job.body.timeout as real, 0.0) + 1.0)
  {
    ReachableInv(s.actions);
    Projects(p, t, events);
    Outcomes.KilledFromStart(s.actions, pid, throws, t.actions, Projected(p, t, events));
  }

  // ---------------------------------------------------------------- draining

  function Acts(events: seq<Scheduler.Event>): seq<Event> {
    if events == [] then [] else [Act(events[0])] + Acts(events[1..])
  }

  /** A run of the action list without appends is a run of the program. */
  lemma {:induction false} Lifts(p: Service, s: State, events: seq<Scheduler.Event>)
    requires Scheduler.Legal(s.actions, events) && Scheduler.Run(s.actions, events).Ok?
    requires forall e :: e in events ==> !e.AppendEvent?
    ensures Legal(p, s, Acts(events))
    ensures Run(p, s, Acts(events)) == Ok(s.(actions := Scheduler.Run(s.actions, events).value))
    decreases |events|
  {
    if events == [] {
    } else {
      assert Acts(events)[1..] == Acts(events[1..]);
      Lifts(p, s.(actions := Scheduler.Step(s.actions, events[0]).value), events[1..]);
    }
  }

  /** From every state of the program, timers alone empty the action list, with all connections left as they are. */
  lemma ProgramDrains(p: Service, s: State) returns (events: seq<Event>)
    requires DaemonInv(p, s)
    ensures Legal(p, s, events) && Run(p, s, events).Ok?
    ensures Run(p, s, events).value.actions.queue == [] && Run(p, s, events).value.connections == s.connections
  {
    ReachableInv(s.actions);
    var actions := DrainsAlone(s.actions);
    Lifts(p, s, actions);
    events := Acts(actions);
  }
}
