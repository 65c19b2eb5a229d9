/**
 Whether commands are ordered as the requests came in: the exact condition, and a run in which they
 are not.
 */
module Arrivals {
  import opened Wrappers
  import Scheduler
  import opened SchedulerRuns
  import Hooks
  import opened Requests
  import opened Setup
  import opened Daemon

  // ---------------------------------------------------------------- overtaking

  /** What finishing connection c adds to the completed requests. */
  function Finishing(s: State, c: nat): Completion
    requires c in s.connections
  {
    var conn := s.connections[c];
    Completion(conn.chain, conn.request, conn.message.content, conn.arrival)
  }

  /** The requests that the order is about: all of them, or those that schedule a command. */
  function Any(): Completion -> bool {
    _ => true
  }

  function WithJobs(p: Service): Completion -> bool {
    (r: Completion) => WalkOf(p, r.chain, r.request, r.content).jobs != []
  }

  /** The request that is open on connection c is finished by the events, and counts. */
  ghost predicate CountedLater(p: Service, s: State, events: seq<Event>, c: nat, counts: Completion -> bool)
    requires Legal(p, s, events)
    decreases |events|
  {
    && c in s.connections && events != [] && Step(p, s, events[0]).Ok?
    && if events[0] == Finish(c) then counts(Finishing(s, c))
       else CountedLater(p, Step(p, s, events[0]).value, events[1..], c, counts)
  }

  /** When a request that counts has been finished, an earlier one is still open that counts and will be finished. */
  ghost predicate Overtakes(p: Service, last: Completion, t: State, rest: seq<Event>, counts: Completion -> bool)
    requires Legal(p, t, rest)
  {
    counts(last) &&
    exists c :: c in t.connections && t.connections[c].arrival < last.arrival && CountedLater(p, t, rest, c, counts)
  }

  ghost predicate SomeOvertakes(p: Service, s: State, events: seq<Event>, counts: Completion -> bool)
    requires Legal(p, s, events)
    decreases |events|
  {
    events != [] && Step(p, s, events[0]).Ok? &&
    var t := Step(p, s, events[0]).value;
    || (events[0].Finish? && Overtakes(p, Finishing(s, events[0].c), t, events[1..], counts))
    || SomeOvertakes(p, t, events[1..], counts)
  }

  // ---------------------------------------------------------------- arrivals

  ghost predicate ArrivalsInv(s: State) {
    && (forall c :: c in s.connections ==> s.connections[c].arrival < s.requests)
    && (forall c, d :: c in s.connections && d in s.connections && c != d ==>
          s.connections[c].arrival != s.connections[d].arrival)
  }

  /** What one event does to the open requests: only finishing and closing takes them away, and new ones are later. */
  ghost predicate KeepsArrivals(s: State, e: Event, t: State) {
    && s.requests <= t.requests
    && (forall c :: c in s.connections && e != Finish(c) && e != Close(c) ==>
          c in t.connections && t.connections[c].arrival == s.connections[c].arrival)
    && (forall c :: c in t.connections ==>
          || (t.connections[c].arrival >= s.requests && c !in s.connections)
          || (c in s.connections && t.connections[c].arrival == s.connections[c].arrival && e != Finish(c) && e != Close(c)))
  }

  lemma StepArrivals(p: Service, s: State, e: Event)
    requires ArrivalsInv(s) && Enabled(s, e) && Step(p, s, e).Ok?
    ensures ArrivalsInv(Step(p, s, e).value) && KeepsArrivals(s, e, Step(p, s, e).value)
  {
    match e
    case Connect(c, m, request) => ConnectArrives(p, s, c, m, request);
    case Receive(c, chunk) => ReceiveArrives(s, c, chunk);
    case Finish(c) => FinishArrives(p, s, c);
    case Close(c) =>
    case Act(_) =>
  }

  lemma ConnectArrives(p: Service, s: State, c: nat, httpMethod: Method, request: Hooks.Request)
    requires ArrivalsInv(s) && c !in s.connections
    ensures ArrivalsInv(OnConnect(p, s, c, httpMethod, request))
    ensures KeepsArrivals(s, Connect(c, httpMethod, request), OnConnect(p, s, c, httpMethod, request))
  {
    var t := OnConnect(p, s, c, httpMethod, request);
    assert c in t.connections ==> t.connections[c].arrival == s.requests < t.requests;
    assert forall d :: d in s.connections ==> d in t.connections && t.connections[d] == s.connections[d];
    assert forall d :: d in t.connections ==> d in s.connections || d == c;
  }

  lemma ReceiveArrives(s: State, c: nat, chunk: string)
    requires ArrivalsInv(s) && c in s.connections && OnReceive(s, c, chunk).Ok?
    ensures ArrivalsInv(OnReceive(s, c, chunk).value) && KeepsArrivals(s, Receive(c, chunk), OnReceive(s, c, chunk).value)
  {
  }

  /** Finishing takes exactly the one request away, and completes it. */
  lemma FinishArrives(p: Service, s: State, c: nat)
    requires ArrivalsInv(s) && c in s.connections && OnFinish(p, s, c).Ok?
    ensures var t := OnFinish(p, s, c).value;
      && t.requests == s.requests && t.connections == s.connections - {c} && ArrivalsInv(t) && KeepsArrivals(s, Finish(c), t)
      && t.completed == s.completed + [Finishing(s, c)]
  {
  }

  // ---------------------------------------------------------------- what a run completes

  ghost function FirstCounted(s: State, e: Event, counts: Completion -> bool): seq<nat>
    requires Enabled(s, e)
  {
    if e.Finish? && counts(Finishing(s, e.c)) then [s.connections[e.c].arrival] else []
  }

  /** The arrivals of the requests that are completed in the run and count, in the order of completion. */
  ghost function Counting(p: Service, s: State, events: seq<Event>, counts: Completion -> bool): seq<nat>
    requires Legal(p, s, events)
    decreases |events|
  {
    if events == [] || Step(p, s, events[0]).Err? then []
    else FirstCounted(s, events[0], counts) + Counting(p, Step(p, s, events[0]).value, events[1..], counts)
  }

  /** all are the arrivals of open requests that the events finish and that count, and of later ones. */
  ghost predicate Completes(p: Service, s: State, events: seq<Event>, counts: Completion -> bool, all: seq<nat>)
    requires Legal(p, s, events)
  {
    && (forall c :: CountedLater(p, s, events, c, counts) ==> s.connections[c].arrival in all)
    && (forall x :: x in all ==>
          x >= s.requests || exists c :: c in s.connections && s.connections[c].arrival == x && CountedLater(p, s, events, c, counts))
  }

  lemma CompletesBefore(p: Service, s: State, events: seq<Event>, t: State, counts: Completion -> bool, later: seq<nat>)
    requires events != [] && Legal(p, s, events) && Step(p, s, events[0]) == Ok(t) && KeepsArrivals(s, events[0], t)
    requires Completes(p, t, events[1..], counts, later)
    ensures Completes(p, s, events, counts, FirstCounted(s, events[0], counts) + later)
  {
    var e, rest := events[0], events[1..];
    var all := FirstCounted(s, e, counts) + later;
    forall c | CountedLater(p, s, events, c, counts) ensures s.connections[c].arrival in all {
      if e != Finish(c) {
        assert CountedLater(p, t, rest, c, counts);
      }
    }
    forall x | x in all && x < s.requests
      ensures exists c :: c in s.connections && s.connections[c].arrival == x && CountedLater(p, s, events, c, counts)
    {
      if x in later {
        var c :| c in t.connections && t.connections[c].arrival == x && CountedLater(p, t, rest, c, counts);
        assert CountedLater(p, s, events, c, counts);
      } else {
        assert CountedLater(p, s, events, e.c, counts);
      }
    }
  }

  /** What is completed in a run: requests that arrive during it, and the open ones that are finished in it. */
  lemma {:induction false} WhoCompletes(p: Service, s: State, events: seq<Event>, counts: Completion -> bool)
    requires ArrivalsInv(s) && Legal(p, s, events) && Run(p, s, events).Ok?
    ensures Completes(p, s, events, counts, Counting(p, s, events, counts))
    decreases |events|
  {
    if events == [] {
    } else {
      var t := Step(p, s, events[0]).value;
      StepArrivals(p, s, events[0]);
      WhoCompletes(p, t, events[1..], counts);
      CompletesBefore(p, s, events, t, counts, Counting(p, t, events[1..], counts));
    }
  }

  ghost predicate Ascending(a: seq<nat>) {
    forall i, j :: 0 <= i < j < |a| ==> a[i] < a[j]
  }

  lemma AscendingCons(x: nat, rest: seq<nat>)
    ensures Ascending([x] + rest) <==> Ascending(rest) && forall y :: y in rest ==> x < y
  {
    var a := [x] + rest;
    assert forall i :: 0 <= i < |rest| ==> rest[i] == a[i + 1];
    if Ascending(a) {
      forall i, j | 0 <= i < j < |rest| ensures rest[i] < rest[j] {
        assert a[i + 1] < a[j + 1];
      }
      forall y | y in rest ensures x < y {
        var i :| 0 <= i < |rest| && rest[i] == y;
        assert a[0] < a[i + 1];
      }
    } else if Ascending(rest) && forall y :: y in rest ==> x < y {
      forall i, j | 0 <= i < j < |a| ensures a[i] < a[j] {
        assert a[j] == rest[j - 1] && a[j] in rest;
        assert i > 0 ==> a[i] == rest[i - 1];
      }
    }
  }

  /** Finishing a request keeps the order exactly if none of those completed later is an earlier one. */
  lemma OvertakesIff(p: Service, s: State, d: nat, t: State, rest: seq<Event>, counts: Completion -> bool, later: seq<nat>)
    requires ArrivalsInv(s) && d in s.connections && counts(Finishing(s, d))
    requires t.requests == s.requests && t.connections == s.connections - {d}
    requires Legal(p, t, rest) && Completes(p, t, rest, counts, later)
    ensures Overtakes(p, Finishing(s, d), t, rest, counts) <==> !(forall x :: x in later ==> s.connections[d].arrival < x)
  {
    if x :| x in later && x <= s.connections[d].arrival {
      var c :| c in t.connections && t.connections[c].arrival == x && CountedLater(p, t, rest, c, counts);
      assert c != d && c in s.connections && s.connections[c].arrival == x;
    }
  }

  lemma {:induction false} AscendingIff(p: Service, s: State, events: seq<Event>, counts: Completion -> bool)
    requires ArrivalsInv(s) && Legal(p, s, events) && Run(p, s, events).Ok?
    ensures Ascending(Counting(p, s, events, counts)) <==> !SomeOvertakes(p, s, events, counts)
    decreases |events|
  {
    if events == [] {
    } else {
      var e, t := events[0], Step(p, s, events[0]).value;
      StepArrivals(p, s, e);
      AscendingIff(p, t, events[1..], counts);
      var later := Counting(p, t, events[1..], counts);
      if e.Finish? && counts(Finishing(s, e.c)) {
        WhoCompletes(p, t, events[1..], counts);
        FinishArrives(p, s, e.c);
        OvertakesIff(p, s, e.c, t, events[1..], counts, later);
        AscendingCons(s.connections[e.c].arrival, later);
      } else {
        assert [] + later == later;
      }
    }
  }

  function Counted(completed: seq<Completion>, counts: Completion -> bool): seq<Completion> {
    if completed == [] then []
    else
      var n := |completed| - 1;
      Counted(completed[..n], counts) + if counts(completed[n]) then [completed[n]] else []
  }

  ghost function ArrivalsOf(completed: seq<Completion>): (r: seq<nat>)
    ensures |r| == |completed| && forall i :: 0 <= i < |r| ==> r[i] == completed[i].arrival
  {
    seq(|completed|, i requires 0 <= i < |completed| => completed[i].arrival)
  }

  /** What one event adds to the completed requests. */
  lemma StepCompletes(p: Service, s: State, e: Event, counts: Completion -> bool)
    requires ArrivalsInv(s) && Enabled(s, e) && Step(p, s, e).Ok?
    ensures ArrivalsOf(Counted(Step(p, s, e).value.completed, counts)) ==
            ArrivalsOf(Counted(s.completed, counts)) + FirstCounted(s, e, counts)
  {
    match e
    case Finish(c) =>
      FinishArrives(p, s, c);
      CountedOneMore(s.completed, Finishing(s, c), counts);
    case Connect(c, m, request) => assert OnConnect(p, s, c, m, request).completed == s.completed;
    case Receive(c, chunk) => assert OnReceive(s, c, chunk).value.completed == s.completed;
    case _ =>
  }

  lemma CountedOneMore(completed: seq<Completion>, last: Completion, counts: Completion -> bool)
    ensures ArrivalsOf(Counted(completed + [last], counts)) ==
            ArrivalsOf(Counted(completed, counts)) + if counts(last) then [last.arrival] else []
  {
    assert (completed + [last])[..|completed|] == completed;
  }

  lemma {:induction false} CompletedArrivals(p: Service, s: State, events: seq<Event>, counts: Completion -> bool)
    requires ArrivalsInv(s) && Legal(p, s, events) && Run(p, s, events).Ok?
    ensures ArrivalsOf(Counted(Run(p, s, events).value.completed, counts)) ==
            ArrivalsOf(Counted(s.completed, counts)) + Counting(p, s, events, counts)
    decreases |events|
  {
    if events == [] {
    } else {
      var t := Step(p, s, events[0]).value;
      StepArrivals(p, s, events[0]);
      StepCompletes(p, s, events[0], counts);
      CompletedArrivals(p, t, events[1..], counts);
      Associative(ArrivalsOf(Counted(s.completed, counts)), FirstCounted(s, events[0], counts), Counting(p, t, events[1..], counts));
    }
  }

  lemma Associative(a: seq<nat>, b: seq<nat>, c: seq<nat>)
    ensures (a + b) + c == a + (b + c)
  {
  }

  lemma CountedOrderIff(p: Service, now: real, events: seq<Event>, counts: Completion -> bool)
    requires Legal(p, Start(now), events) && Run(p, Start(now), events).Ok?
    ensures Ascending(ArrivalsOf(Counted(Run(p, Start(now), events).value.completed, counts))) <==>
            !SomeOvertakes(p, Start(now), events, counts)
  {
    var s := Start(now);
    AscendingIff(p, s, events, counts);
    CompletedArrivals(p, s, events, counts);
    assert ArrivalsOf(Counted(s.completed, counts)) == [];
    assert [] + Counting(p, s, events, counts) == Counting(p, s, events, counts);
  }

  // ---------------------------------------------------------------- the order of requests

  ghost predicate InArrivalOrder(completed: seq<Completion>) {
    forall i, j :: 0 <= i < j < |completed| ==> completed[i].arrival < completed[j].arrival
  }

  lemma {:induction false} AllCounted(completed: seq<Completion>)
    ensures Counted(completed, Any()) == completed
  {
    if completed == [] {
    } else {
      AllCounted(completed[..|completed| - 1]);
    }
  }

  /**
   Requests are completed as they came in if and only if no request is finished while one that was
   accepted earlier is still open and will be finished later.
   */
  lemma ArrivalOrderIff(p: Service, now: real, events: seq<Event>)
    requires Legal(p, Start(now), events) && Run(p, Start(now), events).Ok?
    ensures InArrivalOrder(Run(p, Start(now), events).value.completed) <==> !SomeOvertakes(p, Start(now), events, Any())
  {
    var completed := Run(p, Start(now), events).value.completed;
    CountedOrderIff(p, now, events, Any());
    AllCounted(completed);
    OrderOfArrivals(completed);
  }

  lemma OrderOfArrivals(completed: seq<Completion>)
    ensures InArrivalOrder(completed) <==> Ascending(ArrivalsOf(completed))
  {
    var a := ArrivalsOf(completed);
    if Ascending(a) {
      forall i, j | 0 <= i < j < |completed| ensures completed[i].arrival < completed[j].arrival {
        assert a[i] < a[j];
      }
    }
  }

  // ---------------------------------------------------------------- the order of commands

  function Repeat(x: nat, n: nat): (r: seq<nat>)
    ensures |r| == n && forall i :: 0 <= i < n ==> r[i] == x
  {
    seq(n, _ => x)
  }

  /** For every job that was scheduled, the arrival of its request, in the order of the jobs. */
  function JobArrivals(p: Service, completed: seq<Completion>): seq<nat> {
    if completed == [] then []
    else
      var n := |completed| - 1;
      var last := completed[n];
      JobArrivals(p, completed[..n]) + Repeat(last.arrival, |WalkOf(p, last.chain, last.request, last.content).jobs|)
  }

  /** The arrival at position k is that of the request which has scheduled job k. */
  lemma {:induction false} ArrivalOfJob(p: Service, completed: seq<Completion>, k: nat) returns (i: nat)
    requires k < |JobsOf(p, completed)|
    ensures |JobArrivals(p, completed)| == |JobsOf(p, completed)|
    ensures i < |completed| && completed[i].arrival == JobArrivals(p, completed)[k]
    ensures JobsOf(p, completed)[k] in WalkOf(p, completed[i].chain, completed[i].request, completed[i].content).jobs
  {
    var n := |completed| - 1;
    SameLength(p, completed[..n]);
    if k < |JobsOf(p, completed[..n])| {
      i := ArrivalOfJob(p, completed[..n], k);
    } else {
      i := n;
    }
  }

  lemma {:induction false} SameLength(p: Service, completed: seq<Completion>)
    ensures |JobArrivals(p, completed)| == |JobsOf(p, completed)|
  {
    if completed == [] {
    } else {
      SameLength(p, completed[..|completed| - 1]);
    }
  }

  ghost predicate Sorted(a: seq<nat>) {
    forall i, j :: 0 <= i < j < |a| ==> a[i] <= a[j]
  }

  lemma SortedRepeat(a: seq<nat>, x: nat, n: nat)
    ensures Sorted(a + Repeat(x, n)) <==> Sorted(a) && (n > 0 ==> forall y :: y in a ==> y <= x)
  {
    var b := a + Repeat(x, n);
    if Sorted(b) {
      forall i, j | 0 <= i < j < |a| ensures a[i] <= a[j] {
        assert b[i] <= b[j];
      }
      forall y | n > 0 && y in a ensures y <= x {
        var i :| 0 <= i < |a| && a[i] == y;
        assert b[i] <= b[|a|];
      }
    } else if Sorted(a) && (n > 0 ==> forall y :: y in a ==> y <= x) {
      forall i, j | 0 <= i < j < |b| ensures b[i] <= b[j] {
        if i < |a| {
          assert b[i] == a[i] && a[i] in a;
        }
      }
    }
  }

  lemma AscendingSnoc(a: seq<nat>, x: nat)
    ensures Ascending(a + [x]) <==> Ascending(a) && forall y :: y in a ==> y < x
  {
    var b := a + [x];
    if Ascending(b) {
      forall i, j | 0 <= i < j < |a| ensures a[i] < a[j] {
        assert b[i] < b[j];
      }
      forall y | y in a ensures y < x {
        var i :| 0 <= i < |a| && a[i] == y;
        assert b[i] < b[|a|];
      }
    } else if Ascending(a) && forall y :: y in a ==> y < x {
      forall i, j | 0 <= i < j < |b| ensures b[i] < b[j] {
        assert b[i] == a[i] && a[i] in a;
      }
    }
  }

  /** No two completed requests have the same arrival. */
  ghost predicate DistinctArrivals(completed: seq<Completion>) {
    forall i, j :: 0 <= i < j < |completed| ==> completed[i].arrival != completed[j].arrival
  }

  lemma {:induction false} CountedAreCompleted(completed: seq<Completion>, counts: Completion -> bool)
    ensures forall r :: r in Counted(completed, counts) ==> r in completed
  {
    if completed == [] {
    } else {
      CountedAreCompleted(completed[..|completed| - 1], counts);
    }
  }

  /** Jobs are in arrival order exactly if the requests that scheduled them are. */
  lemma {:induction false} SortedIff(p: Service, completed: seq<Completion>)
    requires DistinctArrivals(completed)
    ensures Sorted(JobArrivals(p, completed)) <==> Ascending(ArrivalsOf(Counted(completed, WithJobs(p))))
    ensures forall x :: x in JobArrivals(p, completed) <==> x in ArrivalsOf(Counted(completed, WithJobs(p)))
  {
    if completed == [] {
    } else {
      var n, last := |completed| - 1, completed[|completed| - 1];
      var before, jobs := ArrivalsOf(Counted(completed[..n], WithJobs(p))), WalkOf(p, last.chain, last.request, last.content).jobs;
      assert completed == completed[..n] + [last];
      SortedIff(p, completed[..n]);
      CountedOneMore(completed[..n], last, WithJobs(p));
      LastArrives(completed, WithJobs(p));
      SortedRepeat(JobArrivals(p, completed[..n]), last.arrival, |jobs|);
      AscendingSnoc(before, last.arrival);
      RepeatMembers(JobArrivals(p, completed[..n]), last.arrival, |jobs|);
      assert before + [] == before;
    }
  }

  lemma RepeatMembers(a: seq<nat>, x: nat, n: nat)
    ensures forall y :: y in a + Repeat(x, n) <==> y in a || (n > 0 && y == x)
  {
    if n > 0 {
      assert Repeat(x, n)[0] == x;
    }
  }

  /** The last request has another arrival than those before it. */
  lemma LastArrives(completed: seq<Completion>, counts: Completion -> bool)
    requires completed != [] && DistinctArrivals(completed)
    ensures completed[|completed| - 1].arrival !in ArrivalsOf(Counted(completed[..|completed| - 1], counts))
    ensures DistinctArrivals(completed[..|completed| - 1])
  {
    var n := |completed| - 1;
    var counted := Counted(completed[..n], counts);
    CountedAreCompleted(completed[..n], counts);
    forall i | 0 <= i < |counted| ensures counted[i].arrival != completed[n].arrival {
      assert counted[i] in counted;
      var j :| 0 <= j < n && completed[..n][j] == counted[i];
      assert completed[j] == counted[i];
    }
  }

  /** The arrivals of completed requests are past, and differ from each other and from those of open ones. */
  ghost predicate PastInv(s: State) {
    && ArrivalsInv(s) && DistinctArrivals(s.completed)
    && (forall i :: 0 <= i < |s.completed| ==> s.completed[i].arrival < s.requests)
    && (forall i, c :: 0 <= i < |s.completed| && c in s.connections ==> s.completed[i].arrival != s.connections[c].arrival)
  }

  lemma StepPast(p: Service, s: State, e: Event)
    requires PastInv(s) && Enabled(s, e) && Step(p, s, e).Ok?
    ensures PastInv(Step(p, s, e).value)
  {
    StepArrivals(p, s, e);
    match e
    case Finish(c) => FinishPast(p, s, c);
    case Connect(c, m, request) => SameCompleted(s, e, OnConnect(p, s, c, m, request));
    case Receive(c, chunk) => SameCompleted(s, e, OnReceive(s, c, chunk).value);
    case Close(c) => SameCompleted(s, e, s.(connections := s.connections - {c}));
    case Act(_) => SameCompleted(s, e, Step(p, s, e).value);
  }

  lemma SameCompleted(s: State, e: Event, t: State)
    requires PastInv(s) && ArrivalsInv(t) && KeepsArrivals(s, e, t) && t.completed == s.completed
    ensures PastInv(t)
  {
  }

  lemma FinishPast(p: Service, s: State, c: nat)
    requires PastInv(s) && c in s.connections && OnFinish(p, s, c).Ok?
    ensures PastInv(OnFinish(p, s, c).value)
  {
    FinishArrives(p, s, c);
    OneMorePast(s, c, OnFinish(p, s, c).value);
  }

  lemma OneMorePast(s: State, c: nat, t: State)
    requires PastInv(s) && c in s.connections && ArrivalsInv(t) && t.requests == s.requests
    requires t.connections == s.connections - {c} && t.completed == s.completed + [Finishing(s, c)]
    ensures PastInv(t)
  {
  }

  lemma {:induction false} RunPast(p: Service, s: State, events: seq<Event>)
    requires PastInv(s) && Legal(p, s, events) && Run(p, s, events).Ok?
    ensures PastInv(Run(p, s, events).value)
    decreases |events|
  {
    if events == [] {
    } else {
      StepPast(p, s, events[0]);
      RunPast(p, Step(p, s, events[0]).value, events[1..]);
    }
  }

  /**
   The README orders commands as the requests came in. That holds if and only if no request that
   schedules something is finished while one that was accepted earlier is still open, will be finished
   later and schedules something then. The arrivals are those of the commands that were started,
   followed by those that wait (ArrivalOfJob).
   */
  lemma CommandOrderIff(p: Service, now: real, events: seq<Event>)
    requires Legal(p, Start(now), events) && Run(p, Start(now), events).Ok?
    ensures var t := Run(p, Start(now), events).value;
      && |JobArrivals(p, t.completed)| == |StartedJobs(t.actions.log) + WaitingJobs(t.actions)|
      && (Sorted(JobArrivals(p, t.completed)) <==> !SomeOvertakes(p, Start(now), events, WithJobs(p)))
  {
    var t := Run(p, Start(now), events).value;
    EndToEndOrder(p, now, events);
    SameLength(p, t.completed);
    RunPast(p, Start(now), events);
    SortedIff(p, t.completed);
    CountedOrderIff(p, now, events, WithJobs(p));
  }

  // ---------------------------------------------------------------- a run out of order

  const DEBUG_HOOK := Hooks.Config("/hook", "debug", "token", "", "", [], 60, Hooks.Debug)

  const NO_PAYLOAD := Hooks.Payload(None, None, None, "")

  /** One debug hook, which schedules a function for every request. */
  function DebugService(): Service {
    Service(Site(EMPTY_SITE.handlers["/hook" := Chained(0)], [[DEBUG_HOOK]]), 100, _ => Some(NO_PAYLOAD))
  }

  function DebugRequest(event: string): Hooks.Request {
    Hooks.Request(true, "/hook", "token", event, Some("peer"))
  }

  function DebugJob(event: string): Scheduler.Job {
    Scheduler.Job("debug", Scheduler.Function(event, ""))
  }

  lemma DebugIsSetUp()
    ensures SetUp([DEBUG_HOOK]) == Ok(DebugService().site)
  {
    assert [DEBUG_HOOK][..0] == [];
    assert SetUp([]) == Ok(EMPTY_SITE) && [] + [[DEBUG_HOOK]] == [[DEBUG_HOOK]];
  }

  lemma DebugWalk(event: string, content: string)
    ensures Hooks.Decide([DEBUG_HOOK], DebugRequest(event)) == Hooks.Accept
    ensures WalkOf(DebugService(), [DEBUG_HOOK], DebugRequest(event), content) == Hooks.Walk([DebugJob(event)], None)
  {
    var chain := [DEBUG_HOOK];
    assert chain[1..] == [];
    assert Hooks.EligibleHooks(chain, "token", "peer") == chain + [];
    assert (chain + [])[1..] == [];
    assert Hooks.Process(DEBUG_HOOK, event, NO_PAYLOAD) == Ok(Some(DebugJob(event)));
    assert Hooks.ProcessAll(chain, event, NO_PAYLOAD) == Hooks.Walk([DebugJob(event)] + [], None);
  }

  lemma DebugConnects(s: State, c: nat, event: string)
    requires c !in s.connections
    ensures OnConnect(DebugService(), s, c, Requests.Post, DebugRequest(event)) ==
            s.(requests := s.requests + 1,
               connections := s.connections[c :=
                 Connection(Accept(NewMessage(100)), [DEBUG_HOOK], DebugRequest(event), [], s.requests)])
  {
    DebugWalk(event, "");
    assert Route(DebugService().site, "/hook") == Some(Chained(0));
  }

  lemma DebugFinishes(s: State, c: nat, event: string)
    requires c in s.connections && s.connections[c].chain == [DEBUG_HOOK]
    requires s.connections[c].message == Accept(NewMessage(100)) && s.connections[c].request == DebugRequest(event)
    ensures OnFinish(DebugService(), s, c).Ok?
    ensures var t := OnFinish(DebugService(), s, c).value;
      && t.connections == s.connections - {c}
      && t.actions == Scheduler.Append(s.actions, DebugJob(event))
      && t.completed == s.completed + [Completion([DEBUG_HOOK], DebugRequest(event), "", s.connections[c].arrival)]
  {
    DebugWalk(event, "");
    assert [DebugJob(event)][..0] == [] && Scheduler.AppendAll(s.actions, []) == s.actions;
    assert Scheduler.AppendAll(s.actions, [DebugJob(event)]) == Scheduler.Append(s.actions, DebugJob(event));
  }

  /** Executing a debug job that waits at the head of the queue. */
  lemma DebugExecutes(s: Scheduler.State, first: string, queue: seq<Scheduler.Item>) returns (t: Scheduler.State)
    requires s.queue == [Scheduler.Item(|s.log| / 2, DebugJob(first), Scheduler.NO_PID, false)] + queue
    requires s.execEv && s.links == []
    ensures Scheduler.ExecuteNext(s, 1, false) == Ok(t)
    ensures t.queue == queue && t.links == [] && t.os == s.os && t.execEv == (queue != [])
    ensures t.log == s.log + [Scheduler.Started(|s.log| / 2, DebugJob(first)), Scheduler.Ended(|s.log| / 2, Scheduler.Returned)]
  {
    t := Scheduler.ExecuteNext(s, 1, false).value;
  }

  /** The events lead from s to t. */
  ghost predicate Leads(p: Service, s: State, events: seq<Event>, t: State) {
    Legal(p, s, events) && Run(p, s, events) == Ok(t)
  }

  lemma {:induction false} LeadsFurther(p: Service, s: State, events: seq<Event>, t: State, e: Event, u: State)
    requires Leads(p, s, events, t) && Enabled(t, e) && Step(p, t, e) == Ok(u)
    ensures Leads(p, s, events + [e], u)
    decreases |events|
  {
    if events == [] {
      assert [] + [e] == [e];
      assert [e][1..] == [];
    } else {
      assert (events + [e])[1..] == events[1..] + [e];
      LeadsFurther(p, Step(p, s, events[0]).value, events[1..], t, e, u);
    }
  }

  /** The request for "earlier" is accepted first, and then the one for "later". */
  lemma BothConnect() returns (events: seq<Event>, t: State)
    ensures Leads(DebugService(), Start(0.0), events, t)
    ensures t == Start(0.0).(requests := 2, connections := map[
      0 := Connection(Accept(NewMessage(100)), [DEBUG_HOOK], DebugRequest("earlier"), [], 0),
      1 := Connection(Accept(NewMessage(100)), [DEBUG_HOOK], DebugRequest("later"), [], 1)])
  {
    var p := DebugService();
    var e0, e1 := Connect(0, Requests.Post, DebugRequest("earlier")), Connect(1, Requests.Post, DebugRequest("later"));
    var s0 := Start(0.0);
    DebugConnects(s0, 0, "earlier");
    var s1 := Step(p, s0, e0).value;
    DebugConnects(s1, 1, "later");
    t := Step(p, s1, e1).value;
    LeadsFurther(p, s0, [], s0, e0, s1);
    LeadsFurther(p, s0, [] + [e0], s1, e1, t);
    events := [] + [e0] + [e1];
  }

  lemma BothFinish() returns (events: seq<Event>, t: State)
    ensures Leads(DebugService(), Start(0.0), events, t)
    ensures t.actions.queue == [Scheduler.Item(0, DebugJob("later"), Scheduler.NO_PID, false),
                                Scheduler.Item(1, DebugJob("earlier"), Scheduler.NO_PID, false)]
    ensures t.actions.execEv && t.actions.links == [] && t.actions.log == [] && t.actions.os.Free(1)
    ensures t.completed == [Completion([DEBUG_HOOK], DebugRequest("later"), "", 1),
                            Completion([DEBUG_HOOK], DebugRequest("earlier"), "", 0)]
  {
    var p := DebugService();
    var before, s2 := BothConnect();
    DebugFinishes(s2, 1, "later");
    var s3 := OnFinish(p, s2, 1).value;
    DebugFinishes(s3, 0, "earlier");
    t := OnFinish(p, s3, 0).value;
    LeadsFurther(p, Start(0.0), before, s2, Finish(1), s3);
    LeadsFurther(p, Start(0.0), before + [Finish(1)], s3, Finish(0), t);
    events := before + [Finish(1)] + [Finish(0)];
  }

  /**
   The README's order fails: of two requests for a debug hook, the one that was accepted first is
   completed second, and its job is started second.
   */
  lemma SecondComesFirst() returns (events: seq<Event>, t: State)
    ensures SetUp([DEBUG_HOOK]) == Ok(DebugService().site)
    ensures Leads(DebugService(), Start(0.0), events, t)
    ensures StartedJobs(t.actions.log) == [DebugJob("later"), DebugJob("earlier")]
    ensures t.completed == [Completion([DEBUG_HOOK], DebugRequest("later"), "", 1),
                            Completion([DEBUG_HOOK], DebugRequest("earlier"), "", 0)]
  {
    DebugIsSetUp();
    var p, exec := DebugService(), Act(Scheduler.ExecEvent(1, false));
    var before, s4 := BothFinish();
    var a := DebugExecutes(s4.actions, "later", s4.actions.queue[1..]);
    var b := DebugExecutes(a, "earlier", []);
    LeadsFurther(p, Start(0.0), before, s4, exec, s4.(actions := a));
    LeadsFurther(p, Start(0.0), before + [exec], s4.(actions := a), exec, s4.(actions := b));
    t := s4.(actions := b);
    events := before + [exec] + [exec];
    StartedInTurn(b.log, DebugJob("later"), DebugJob("earlier"));
  }

  lemma StartedInTurn(log: seq<Scheduler.Entry>, a: Scheduler.Job, b: Scheduler.Job)
    requires |log| == 4 && log[0] == Scheduler.Started(0, a) && log[1].Ended? && log[2] == Scheduler.Started(1, b) && log[3].Ended?
    ensures StartedJobs(log) == [a, b]
  {
    var three, two, one := log[..3], log[..3][..2], log[..3][..2][..1];
    assert one[..0] == [];
    assert StartedJobs(one) == [] + [a] == [a];
    assert StartedJobs(two) == [a] + [] == [a];
    assert StartedJobs(three) == [a] + [b] == [a, b];
    assert [a, b] + [] == [a, b];
  }
}
