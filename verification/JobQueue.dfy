/** The in-process report queue: two slots, first come first served. */
module JobQueue {
  const MAX_CONCURRENT_JOBS := 2

  type Job = nat

  /** The two fields of the queue, and what happened so far: the jobs started, and the jobs settled either way. */
  datatype Queue = Queue(queue: seq<Job>, running: nat, started: seq<Job>, settled: seq<Job>)

  function Idle(): Queue { Queue([], 0, [], []) }

  function Min(a: int, b: int): int { if a < b then a else b }

  /** The jobs in progress, one entry for every start not yet settled. */
  function Active(q: Queue): multiset<Job> { multiset(q.started) - multiset(q.settled) }

  /** The free slots that waiting jobs can take. */
  function Startable(q: Queue): nat {
    if q.running < MAX_CONCURRENT_JOBS then Min(MAX_CONCURRENT_JOBS - q.running, |q.queue|) else 0
  }

  /** The state after the n oldest waiting jobs have started. */
  function Started(q: Queue, n: nat): Queue
    requires n <= |q.queue|
  {
    Queue(q.queue[n..], q.running + n, q.started + q.queue[..n], q.settled)
  }

  /** What a drain does: as many waiting jobs as there are free slots start, oldest first. */
  function Drained(q: Queue): Queue { Started(q, Startable(q)) }

  lemma StartedOneMore(q: Queue, n: nat)
    requires n < |q.queue|
    ensures var now := Started(q, n);
      Started(q, n + 1) == Queue(now.queue[1..], now.running + 1, now.started + [now.queue[0]], now.settled)
  {
    assert q.queue[n..][1..] == q.queue[n + 1..];
    assert q.queue[..n + 1] == q.queue[..n] + [q.queue[n]];
    assert q.started + q.queue[..n + 1] == q.started + q.queue[..n] + [q.queue[n]];
  }

  function Enqueued(q: Queue, job: Job): Queue { Drained(q.(queue := q.queue + [job])) }

  /** A job in progress resolved or rejected; the rejection is logged and makes no other difference. */
  function Settled(q: Queue, job: Job): Queue
    requires q.running > 0
  {
    Drained(q.(running := q.running - 1, settled := q.settled + [job]))
  }

  class ReportJobQueue {
    var queue: seq<Job>
    var running: nat
    ghost var started: seq<Job>
    ghost var settled: seq<Job>

    ghost function View(): Queue
      reads this
    {
      Queue(queue, running, started, settled)
    }

    constructor ()
      ensures View() == Idle()
    {
      queue, running, started, settled := [], 0, [], [];
    }

    method Enqueue(job: Job)
      modifies this
      ensures View() == Enqueued(old(View()), job)
    {
      queue := queue + [job];
      Drain();
    }

    method Drain()
      modifies this
      ensures View() == Drained(old(View()))
    {
      ghost var before := View();
      ghost var n := 0;
      while running < MAX_CONCURRENT_JOBS && |queue| > 0
        invariant n <= Startable(before)
        invariant View() == Started(before, n)
        decreases |queue|
      {
        StartedOneMore(before, n);
        var job := queue[0];
        queue := queue[1..];
        running := running + 1;
        started := started + [job];
        n := n + 1;
      }
    }

    /** The completion callback of a job in progress. */
    method Settle(job: Job)
      requires running > 0
      modifies this
      ensures View() == Settled(old(View()), job)
    {
      settled := settled + [job];
      running := running - 1;
      Drain();
    }
  }

  // ---------- Runs ----------

  datatype Event = Arrives(job: Job) | Resolves(job: Job) | Rejects(job: Job)

  /** Only a job in progress can settle. */
  predicate Enabled(q: Queue, e: Event) { e.Arrives? || e.job in Active(q) }

  predicate Happens(q: Queue, e: Event, next: Queue) {
    Enabled(q, e) && if e.Arrives? then next == Enqueued(q, e.job) else q.running > 0 && next == Settled(q, e.job)
  }

  /** The states of the queue along the events, one after each, starting from the idle queue. */
  predicate IsRun(events: seq<Event>, states: seq<Queue>) {
    && |states| == |events| + 1 && states[0] == Idle()
    && forall i :: 0 <= i < |events| ==> Happens(states[i], events[i], states[i + 1])
  }

  function Arrivals(events: seq<Event>): seq<Job> {
    if events == [] then []
    else Arrivals(events[..|events| - 1]) + (match events[|events| - 1] case Arrives(job) => [job] case _ => [])
  }

  function Settlements(events: seq<Event>): nat {
    if events == [] then 0
    else Settlements(events[..|events| - 1]) + (if events[|events| - 1].Arrives? then 0 else 1)
  }

  /** Every settlement is of a job that was started, and the counter counts the jobs in progress. */
  predicate Counted(q: Queue) {
    && multiset(q.settled) <= multiset(q.started)
    && q.running == |q.started| - |q.settled|
    && q.running <= 2
  }

  /** What holds between any two events: besides, no slot is free while a job waits. */
  predicate Valid(q: Queue) {
    Counted(q) && (q.queue != [] ==> q.running == 2)
  }

  lemma RunningIsActive(q: Queue)
    requires Counted(q)
    ensures q.running == |Active(q)|
  {
    assert |multiset(q.started)| == |q.started| && |multiset(q.settled)| == |q.settled|;
  }

  lemma StartedCounts(q: Queue, n: nat)
    requires Counted(q) && n <= |q.queue| && q.running + n <= MAX_CONCURRENT_JOBS
    ensures Counted(Started(q, n)) && Started(q, n).started + Started(q, n).queue == q.started + q.queue
  {
    assert q.queue == q.queue[..n] + q.queue[n..];
    StartingCounts(q.started, q.queue[..n], q.settled);
  }

  lemma DrainedCounts(q: Queue)
    requires Counted(q)
    ensures Valid(Drained(q)) && Drained(q).started + Drained(q).queue == q.started + q.queue
  {
    StartedCounts(q, Startable(q));
  }

  lemma StartingCounts(started: seq<Job>, more: seq<Job>, settled: seq<Job>)
    requires multiset(settled) <= multiset(started)
    ensures multiset(settled) <= multiset(started + more)
  {
    assert multiset(started + more) == multiset(started) + multiset(more);
  }

  lemma SettlingCounts(q: Queue, job: Job)
    requires Counted(q) && job in Active(q)
    ensures q.running > 0 && Counted(q.(running := q.running - 1, settled := q.settled + [job]))
  {
    assert multiset(q.settled + [job]) == multiset(q.settled) + multiset{job};
    RunningIsActive(q);
  }

  lemma ArrivalKeepsValid(q: Queue, job: Job)
    requires Valid(q)
    ensures Valid(Enqueued(q, job)) && Enqueued(q, job).settled == q.settled
    ensures Enqueued(q, job).started + Enqueued(q, job).queue == q.started + q.queue + [job]
  {
    DrainedCounts(q.(queue := q.queue + [job]));
    assert q.started + (q.queue + [job]) == q.started + q.queue + [job];
  }

  lemma SettlementKeepsValid(q: Queue, job: Job)
    requires Valid(q) && job in Active(q)
    ensures q.running > 0 && Valid(Settled(q, job)) && Settled(q, job).settled == q.settled + [job]
    ensures Settled(q, job).started + Settled(q, job).queue == q.started + q.queue
  {
    SettlingCounts(q, job);
    DrainedCounts(q.(running := q.running - 1, settled := q.settled + [job]));
  }

  lemma StepKeepsValid(q: Queue, e: Event, next: Queue)
    requires Valid(q) && Happens(q, e, next)
    ensures Valid(next) && |next.settled| == |q.settled| + (if e.Arrives? then 0 else 1)
    ensures next.started + next.queue == q.started + q.queue + (if e.Arrives? then [e.job] else [])
  {
    if e.Arrives? {
      ArrivalKeepsValid(q, e.job);
    } else {
      SettlementKeepsValid(q, e.job);
      assert q.started + q.queue + [] == q.started + q.queue;
    }
  }

  lemma {:induction false} RunKeepsValid(events: seq<Event>, states: seq<Queue>)
    requires IsRun(events, states)
    ensures Valid(states[|events|]) && |states[|events|].settled| == Settlements(events)
    ensures states[|events|].started + states[|events|].queue == Arrivals(events)
  {
    var n := |events|;
    if n == 0 {
      assert states[0] == Idle();
    } else {
      RunKeepsValid(events[..n - 1], states[..n]);
      assert Happens(states[n - 1], events[n - 1], states[n]);
      StepKeepsValid(states[n - 1], events[n - 1], states[n]);
    }
  }

  /**
   * Along every run: at most two jobs in progress and the counter counts them; no slot is free while a
   * job waits; and the jobs started are exactly the oldest so many arrivals, each once, in order.
   */
  lemma {:induction false} QueueIsFair(events: seq<Event>, states: seq<Queue>)
    requires IsRun(events, states)
    ensures var q := states[|events|];
            && Valid(q) && q.running == |Active(q)| && |q.settled| == Settlements(events)
            && q.started + q.queue == Arrivals(events)
            && |q.started| == Min(|Arrivals(events)|, Settlements(events) + 2)
  {
    RunKeepsValid(events, states);
    var q := states[|events|];
    RunningIsActive(q);
    assert |q.started + q.queue| == |q.started| + |q.queue|;
  }

  /** The k-th arrival, counting from 0, has started if and only if more than k - 2 jobs have settled. */
  lemma StartedExactlyWhen(events: seq<Event>, states: seq<Queue>, k: nat)
    requires IsRun(events, states) && k < |Arrivals(events)|
    ensures var q := states[|events|];
            && (k < |q.started| <==> k < Settlements(events) + 2)
            && (k < |q.started| ==> q.started[k] == Arrivals(events)[k])
  {
    QueueIsFair(events, states);
    var q := states[|events|];
    assert (q.started + q.queue)[k] == Arrivals(events)[k];
  }

  // ---------- Emptying ----------

  function Left(q: Queue): nat { |q.queue| + q.running }

  /** Unless the queue is idle some job is in progress, and can settle. */
  lemma SomethingRuns(q: Queue) returns (job: Job)
    requires Valid(q) && Left(q) > 0
    ensures Enabled(q, Resolves(job)) && Enabled(q, Rejects(job))
  {
    RunningIsActive(q);
    job :| job in Active(q);
  }

  lemma SettlingProgresses(q: Queue, e: Event, next: Queue)
    requires Valid(q) && !e.Arrives? && Happens(q, e, next)
    ensures Valid(next) && Left(next) == Left(q) - 1
  {
    StepKeepsValid(q, e, next);
    assert |next.started + next.queue| == |q.started + q.queue + []|;
  }

  /** States along settlements only, from a valid one. */
  predicate SettlesFrom(events: seq<Event>, states: seq<Queue>) {
    && |states| == |events| + 1 && Valid(states[0])
    && forall i :: 0 <= i < |events| ==> !events[i].Arrives? && Happens(states[i], events[i], states[i + 1])
  }

  lemma {:induction false} EachSettlementCounts(events: seq<Event>, states: seq<Queue>)
    requires SettlesFrom(events, states)
    ensures Valid(states[|events|]) && Left(states[|events|]) == Left(states[0]) - |events|
  {
    var n := |events|;
    if n > 0 {
      EachSettlementCounts(events[..n - 1], states[..n]);
      assert Happens(states[n - 1], events[n - 1], states[n]);
      SettlingProgresses(states[n - 1], events[n - 1], states[n]);
    }
  }

  /** Without further arrivals, exactly as many settlements as jobs are left make the queue idle. */
  lemma SettlementsEmptyQueue(events: seq<Event>, states: seq<Queue>)
    requires SettlesFrom(events, states)
    ensures Valid(states[|events|]) && |events| <= Left(states[0])
    ensures Left(states[|events|]) == Left(states[0]) - |events|
    ensures |events| == Left(states[0]) <==> states[|events|].queue == [] && states[|events|].running == 0
  {
    EachSettlementCounts(events, states);
  }
}
