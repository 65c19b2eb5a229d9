/**
 The action list and the process manager as one state machine over values. Every callback of the
 program is one function; every way in which a callback could go wrong (an assert, a null or
 dangling pointer, a corrupted process list) is a Fault it can return.
 */
module Scheduler {
  import opened Wrappers
  import opened Kernel

  datatype Body =
    | Command(program: string, args: seq<string>, env: seq<string>, timeout: int)
    | Function(event: string, text: string)

  datatype Job = Job(name: string, body: Body)

  const NO_PID := -1

  /** A queued action with the pid and handler of its process. The id is its address. */
  datatype Item = Item(id: nat, job: Job, pid: int, handler: bool)

  datatype How = Completed(status: ExitStatus) | Returned | Threw | Killed

  datatype Entry = Started(id: nat, job: Job) | Ended(id: nat, how: How)

  /**
   execEv is true while the event is active; a timer is Some(deadline) while it is pending or
   active. links is the process list from its head, as item ids. appended and log are history.
   */
  datatype State = State(
    queue: seq<Item>,
    links: seq<nat>,
    execEv: bool,
    timeoutEv: Option<real>,
    killEv: Option<real>,
    now: real,
    os: Os,
    executed: nat,
    failed: nat,
    appended: seq<Job>,
    log: seq<Entry>)

  datatype Fault =
    | EmptyQueue         // front() or pop_front() on an empty list
    | NullProcess        // a function action has no process to signal
    | NoPid              // the asserts of terminate() and kill()
    | NotLinked          // the assert of list::remove()
    | AlreadyLinked      // list::add() of a linked node would close a cycle
    | DanglingNode       // a linked node whose item was destroyed
    | DestroyedRunning   // an item is popped while its child is not accounted for
    | EmptyHandler       // an empty std::function is called

  type Outcome = Result<State, Fault>

  function Init(now: real): State {
    State([], [], false, None, None, now, NO_CHILDREN, 0, 0, [], [])
  }

  // ---------------------------------------------------------------- process list

  function Lookup(queue: seq<Item>, id: nat): (r: Option<nat>)
    ensures r.Some? ==> r.value < |queue| && queue[r.value].id == id
    ensures r.None? ==> forall i :: 0 <= i < |queue| ==> queue[i].id != id
  {
    if queue == [] then None
    else if queue[|queue| - 1].id == id then Some(|queue| - 1)
    else Lookup(queue[..|queue| - 1], id)
  }

  /** The walk of onSigchld: the first linked node that has the pid. */
  function FindLink(queue: seq<Item>, links: seq<nat>, pid: int): (r: Result<Option<nat>, Fault>)
    ensures r.Ok? && r.value.Some? ==> r.value.value < |queue| && queue[r.value.value].pid == pid
  {
    if links == [] then Ok(None)
    else
      match Lookup(queue, links[0])
      case None => Err(DanglingNode)
      case Some(i) =>
        if queue[i].pid == pid then Ok(Some(i)) else FindLink(queue, links[1..], pid)
  }

  /** Unlinks the first occurrence of id and leaves the other nodes as they are. */
  function Without(links: seq<nat>, id: nat): seq<nat> {
    if links == [] then []
    else if links[0] == id then links[1..]
    else [links[0]] + Without(links[1..], id)
  }

  // ---------------------------------------------------------------- action list

  function Append(s: State, job: Job): State {
    s.(queue := s.queue + [Item(|s.appended|, job, NO_PID, false)],
       appended := s.appended + [job],
       execEv := s.execEv || |s.queue| == 0)
  }

  function AppendAll(s: State, jobs: seq<Job>): State {
    if jobs == [] then s else Append(AppendAll(s, jobs[..|jobs| - 1]), jobs[|jobs| - 1])
  }

  /** Pops and destroys the head; activates execEv when actions are left. */
  function PopFront(s: State): Outcome {
    if s.queue == [] then Err(EmptyQueue)
    else if s.queue[0].pid != NO_PID then Err(DestroyedRunning)
    else if s.queue[0].id in s.links then Err(DanglingNode)
    else Ok(s.(queue := s.queue[1..], execEv := s.execEv || |s.queue| > 1))
  }

  /** addFailure where the end counts as one, the history entry, and finishExecuteAction. */
  function EndHead(s: State, how: How): Outcome {
    if s.queue == [] then Err(EmptyQueue)
    else PopFront(s.(failed := s.failed + if CountsAsFailure(how) then 1 else 0,
                     log := s.log + [Ended(s.queue[0].id, how)]))
  }

  predicate CountsAsFailure(how: How) {
    how.Threw? || (how.Completed? && IsFailure(how.status))
  }

  /** process::start in the parent, and the timer that executeProcess arms. */
  function StartProcess(s: State, pid: int): Outcome
    requires s.queue != [] && s.queue[0].job.body.Command?
  {
    var head := s.queue[0];
    if head.id in s.links then Err(AlreadyLinked)
    else Ok(s.(queue := s.queue[0 := head.(pid := pid, handler := true)],
               links := [head.id] + s.links,
               os := s.os.Fork(pid, head.id),
               timeoutEv := Some(s.now + head.job.body.timeout as real)))
  }

  function ExecuteNext(s: State, pid: int, throws: bool): Outcome {
    if s.queue == [] then Err(EmptyQueue)
    else
      var head := s.queue[0];
      var s1 := s.(execEv := false, executed := s.executed + 1, log := s.log + [Started(head.id, head.job)]);
      if head.job.body.Command? then StartProcess(s1, pid)
      else EndHead(s1, if throws then Threw else Returned)
  }

  function TerminateCurrent(s: State): Outcome {
    if s.queue == [] then Err(EmptyQueue)
    else if !s.queue[0].job.body.Command? then Err(NullProcess)
    else if s.queue[0].pid == NO_PID then Err(NoPid)
    else Ok(s.(timeoutEv := None, killEv := Some(s.now + 1.0)))
  }

  function KillCurrent(s: State): Outcome {
    if s.queue == [] then Err(EmptyQueue)
    else
      var head := s.queue[0];
      if !head.job.body.Command? then Err(NullProcess)
      else if head.pid == NO_PID then Err(NoPid)
      else if head.id !in s.links then Err(NotLinked)
      else EndHead(s.(queue := s.queue[0 := head.(pid := NO_PID, handler := false)],
                      links := Without(s.links, head.id),
                      killEv := None), Killed)
  }

  /** The completion handler that executeProcess passes to process::start. */
  function Complete(s: State, status: ExitStatus): Outcome {
    EndHead(s.(timeoutEv := None, killEv := None), Completed(status))
  }

  /** One round of onSigchld: waitid has returned the zombie pid. */
  function Reap(s: State, pid: int): Outcome
    requires pid in s.os.zombies && s.os.zombies[pid] in s.os.fate
  {
    var status := s.os.fate[s.os.zombies[pid]];
    var s1 := s.(os := s.os.Reap(pid));
    var found :- FindLink(s.queue, s.links, pid);
    match found
    case None => Ok(s1)
    case Some(i) =>
      var item := s.queue[i];
      if !item.handler then Err(EmptyHandler)
      else Complete(s1.(queue := s.queue[i := item.(pid := NO_PID, handler := false)],
                        links := Without(s.links, item.id)), status)
  }

  function Sigchld(s: State, order: seq<int>): Outcome
    decreases |order|
  {
    if order == [] then Ok(s)
    else if order[0] !in s.os.zombies || s.os.zombies[order[0]] !in s.os.fate then Ok(s)
    else
      var s1 :- Reap(s, order[0]);
      Sigchld(s1, order[1..])
  }

  // ---------------------------------------------------------------- dispatch

  /** What the event loop and the operating system can do next. */
  datatype Event =
    | AppendEvent(job: Job)
    | ExecEvent(pid: int, throws: bool)
    | TimeoutEvent
    | KillEvent
    | SigchldEvent(order: seq<int>)
    | ChildExit(pid: int, status: ExitStatus)
    | Tick(seconds: real)

  ghost predicate Enabled(s: State, e: Event) {
    match e
    case AppendEvent(_) => true
    case ExecEvent(pid, _) => s.execEv && s.os.Free(pid)
    case TimeoutEvent => s.timeoutEv.Some? && s.timeoutEv.value <= s.now
    case KillEvent => s.killEv.Some? && s.killEv.value <= s.now
    case SigchldEvent(order) => Enumerates(order, s.os.zombies.Keys)
    case ChildExit(pid, _) => pid in s.os.running
    case Tick(d) => d >= 0.0
  }

  ghost function Step(s: State, e: Event): Outcome
    requires Enabled(s, e)
  {
    match e
    case AppendEvent(job) => Ok(Append(s, job))
    case ExecEvent(pid, throws) => ExecuteNext(s, pid, throws)
    case TimeoutEvent => TerminateCurrent(s)
    case KillEvent => KillCurrent(s)
    case SigchldEvent(order) => Sigchld(s, order)
    case ChildExit(pid, status) => Ok(s.(os := s.os.Exit(pid, status)))
    case Tick(d) => Ok(s.(now := s.now + d))
  }

  /** A run is any sequence of events, each enabled where it occurs. */
  ghost predicate Legal(s: State, events: seq<Event>)
    decreases |events|
  {
    events == [] ||
    (Enabled(s, events[0]) &&
     (Step(s, events[0]).Ok? ==> Legal(Step(s, events[0]).value, events[1..])))
  }

  ghost function Run(s: State, events: seq<Event>): Outcome
    requires Legal(s, events)
    decreases |events|
  {
    if events == [] then Ok(s)
    else
      var s1 :- Step(s, events[0]);
      Run(s1, events[1..])
  }
}
