/** The in-process job queue and its pool of workers.

    A worker's loop has two points where others run: while it waits for a job, and while the processor
    runs. `Get` and `Done` are the stretches between them; `Cancel` is a cancellation reaching a worker
    at whichever of the two points it is. */
module JobQueueModel {
  import opened Prelude

  datatype Worker<+J> = Idle | Busy(job: J) | Exited

  /** How the processor leaves a job: an ordinary exception is logged, a cancellation passes through. */
  datatype Outcome = Returned | Raised | Interrupted

  /** Workers from `tracked` on are those of the latest start, which `stop` knows; `unfinished` is the
      queue's own count; the last four fields are history. */
  datatype Pool<J> = Pool(
    queue: seq<J>, workers: seq<Worker<J>>, tracked: nat, unfinished: int,
    enqueued: seq<J>, started: seq<J>, finished: seq<J>, aborted: seq<J>)

  datatype Event<J> =
    | Spawn(count: nat)
    | Put(job: J)
    | Get(worker: nat)
    | Done(worker: nat, outcome: Outcome)
    | Cancel(worker: nat)

  /** The job a worker holds, if any. */
  function Held<J>(w: Worker<J>): seq<J> {
    if w.Busy? then [w.job] else []
  }

  /** The jobs in flight, by worker. */
  function InFlight<J>(workers: seq<Worker<J>>): seq<J> {
    if workers == [] then []
    else InFlight(workers[..|workers| - 1]) + Held(workers[|workers| - 1])
  }

  function Alive<J>(w: Worker<J>): nat {
    if w.Exited? then 0 else 1
  }

  function Live<J>(workers: seq<Worker<J>>): nat {
    if workers == [] then 0
    else Live(workers[..|workers| - 1]) + Alive(workers[|workers| - 1])
  }

  function Empty<J>(): Pool<J> {
    Pool([], [], 0, 0, [], [], [], [])
  }

  /** The worker is through with its job and counts it; it goes on unless it was interrupted. */
  function Finish<J>(p: Pool<J>, i: nat, outcome: Outcome): Pool<J>
    requires i < |p.workers| && p.workers[i].Busy?
  {
    var job := p.workers[i].job;
    if outcome == Interrupted then
      p.(workers := p.workers[i := Exited], unfinished := p.unfinished - 1, aborted := p.aborted + [job])
    else
      p.(workers := p.workers[i := Idle], unfinished := p.unfinished - 1, finished := p.finished + [job])
  }

  function Next<J>(p: Pool<J>, e: Event<J>): Pool<J> {
    match e
    case Spawn(n) => p.(workers := p.workers + seq(n, _ => Idle), tracked := |p.workers|)
    case Put(j) => p.(queue := p.queue + [j], unfinished := p.unfinished + 1, enqueued := p.enqueued + [j])
    case Get(i) =>
      if i < |p.workers| && p.workers[i].Idle? && p.queue != [] then
        p.(queue := p.queue[1..], workers := p.workers[i := Busy(p.queue[0])], started := p.started + [p.queue[0]])
      else p
    case Done(i, outcome) =>
      if i < |p.workers| && p.workers[i].Busy? then Finish(p, i, outcome) else p
    case Cancel(i) =>
      if i < |p.workers| && p.workers[i].Busy? then Finish(p, i, Interrupted)
      else if i < |p.workers| then p.(workers := p.workers[i := Exited])
      else p
  }

  function Run<J>(p: Pool<J>, schedule: seq<Event<J>>): Pool<J> {
    if schedule == [] then p
    else Next(Run(p, schedule[..|schedule| - 1]), schedule[|schedule| - 1])
  }

  /** The workers started over a schedule. */
  function Spawned<J>(schedule: seq<Event<J>>): nat {
    if schedule == [] then 0
    else
      var e := schedule[|schedule| - 1];
      Spawned(schedule[..|schedule| - 1]) + if e.Spawn? then e.count else 0
  }

  // ---- counting what is in flight ---------------------------------------------------

  lemma {:induction false} InFlightAppend<J>(a: seq<Worker<J>>, b: seq<Worker<J>>)
    ensures InFlight(a + b) == InFlight(a) + InFlight(b)
    decreases |b|
  {
    if b == [] {
      assert a + b == a;
    } else {
      assert (a + b)[..|a + b| - 1] == a + b[..|b| - 1];
      InFlightAppend(a, b[..|b| - 1]);
    }
  }

  /** The jobs of the other workers stay where they are around those of one worker. */
  lemma InFlightAround<J>(a: seq<Worker<J>>, w: Worker<J>, b: seq<Worker<J>>)
    ensures InFlight(a + [w] + b) == InFlight(a) + Held(w) + InFlight(b)
  {
    InFlightAppend(a + [w], b);
    assert (a + [w])[..|a|] == a;
  }

  lemma InFlightUpdate<J>(workers: seq<Worker<J>>, i: nat, w: Worker<J>)
    requires i < |workers|
    ensures InFlight(workers) == InFlight(workers[..i]) + Held(workers[i]) + InFlight(workers[i + 1..])
    ensures InFlight(workers[i := w]) == InFlight(workers[..i]) + Held(w) + InFlight(workers[i + 1..])
  {
    InFlightAround(workers[..i], workers[i], workers[i + 1..]);
    InFlightAround(workers[..i], w, workers[i + 1..]);
    SlicesAround(workers, i, w);
  }

  lemma SlicesAround<T>(s: seq<T>, i: nat, x: T)
    requires i < |s|
    ensures s == s[..i] + [s[i]] + s[i + 1..]
    ensures s[i := x] == s[..i] + [x] + s[i + 1..]
  {
  }

  lemma {:induction false} LiveUpdate<J>(workers: seq<Worker<J>>, i: nat, w: Worker<J>)
    requires i < |workers|
    ensures Live(workers[i := w]) + Alive(workers[i]) == Live(workers) + Alive(w)
    decreases |workers|
  {
    var n := |workers| - 1;
    if i < n {
      LiveUpdate(workers[..n], i, w);
      assert workers[i := w][..n] == workers[..n][i := w];
    } else {
      assert workers[i := w][..n] == workers[..n];
    }
  }

  lemma {:induction false} LiveAppend<J>(a: seq<Worker<J>>, b: seq<Worker<J>>)
    ensures Live(a + b) == Live(a) + Live(b)
    decreases |b|
  {
    if b == [] {
      assert a + b == a;
    } else {
      assert (a + b)[..|a + b| - 1] == a + b[..|b| - 1];
      LiveAppend(a, b[..|b| - 1]);
    }
  }

  lemma {:induction false} InFlightAtMostOneEach<J>(workers: seq<Worker<J>>)
    ensures |InFlight(workers)| <= |workers|
    decreases |workers|
  {
    if workers != [] {
      InFlightAtMostOneEach(workers[..|workers| - 1]);
    }
  }

  lemma {:induction false} NoneInFlight<J>(workers: seq<Worker<J>>)
    requires forall i :: 0 <= i < |workers| ==> !workers[i].Busy?
    ensures InFlight(workers) == []
    ensures (forall i :: 0 <= i < |workers| ==> workers[i].Idle?) ==> Live(workers) == |workers|
    decreases |workers|
  {
    if workers != [] {
      NoneInFlight(workers[..|workers| - 1]);
    }
  }

  // ---- conservation -------------------------------------------------------------------

  /** Every job is in exactly one place, jobs start in the order they came, and the count is right. */
  ghost predicate Conserved<J>(p: Pool<J>) {
    && p.enqueued == p.started + p.queue
    && multiset(p.started) == multiset(InFlight(p.workers)) + multiset(p.finished) + multiset(p.aborted)
    && p.unfinished == |p.queue| + |InFlight(p.workers)|
  }

  lemma InsertOne<J>(a: seq<J>, j: J, b: seq<J>)
    ensures multiset(a + [j] + b) == multiset(a + b) + multiset{j}
  {
  }

  lemma GetMoves<J>(p: Pool<J>, i: nat)
    requires i < |p.workers| && p.workers[i].Idle? && p.queue != []
    ensures var q := Next(p, Get(i));
            && multiset(InFlight(q.workers)) == multiset(InFlight(p.workers)) + multiset{p.queue[0]}
            && |InFlight(q.workers)| == |InFlight(p.workers)| + 1
  {
    var j := p.queue[0];
    var a, b := InFlight(p.workers[..i]), InFlight(p.workers[i + 1..]);
    InFlightUpdate(p.workers, i, Busy(j));
    assert a + [] + b == a + b;
    InsertOne(a, j, b);
  }

  lemma FinishMoves<J>(p: Pool<J>, i: nat, outcome: Outcome)
    requires i < |p.workers| && p.workers[i].Busy?
    ensures var q := Finish(p, i, outcome);
            && multiset(InFlight(p.workers)) == multiset(InFlight(q.workers)) + multiset{p.workers[i].job}
            && |InFlight(p.workers)| == |InFlight(q.workers)| + 1
  {
    var j := p.workers[i].job;
    var a, b := InFlight(p.workers[..i]), InFlight(p.workers[i + 1..]);
    InFlightUpdate(p.workers, i, if outcome == Interrupted then Exited else Idle);
    assert a + [] + b == a + b;
    InsertOne(a, j, b);
  }

  lemma MoveFront<J>(started: seq<J>, queue: seq<J>, before: multiset<J>, after: multiset<J>, rest: multiset<J>)
    requires queue != [] && after == before + multiset{queue[0]}
    requires multiset(started) == before + rest
    ensures started + queue == (started + [queue[0]]) + queue[1..]
    ensures multiset(started + [queue[0]]) == after + rest
  {
  }

  lemma GetConserves<J>(p: Pool<J>, i: nat)
    requires Conserved(p)
    ensures Conserved(Next(p, Get(i)))
  {
    if i < |p.workers| && p.workers[i].Idle? && p.queue != [] {
      GetMoves(p, i);
      var rest := multiset(p.finished) + multiset(p.aborted);
      var before, after := multiset(InFlight(p.workers)), multiset(InFlight(Next(p, Get(i)).workers));
      assert before + multiset(p.finished) + multiset(p.aborted) == before + rest;
      assert after + multiset(p.finished) + multiset(p.aborted) == after + rest;
      MoveFront(p.started, p.queue, before, after, rest);
    }
  }

  lemma FinishConserves<J>(p: Pool<J>, i: nat, outcome: Outcome)
    requires Conserved(p) && i < |p.workers| && p.workers[i].Busy?
    ensures Conserved(Finish(p, i, outcome))
  {
    FinishMoves(p, i, outcome);
  }

  lemma SpawnConserves<J>(p: Pool<J>, n: nat)
    requires Conserved(p)
    ensures Conserved(Next(p, Spawn(n)))
  {
    InFlightAppend(p.workers, seq(n, _ => Idle));
    NoneInFlight<J>(seq(n, _ => Idle));
  }

  lemma DoneConserves<J>(p: Pool<J>, i: nat, outcome: Outcome)
    requires Conserved(p)
    ensures Conserved(Next(p, Done(i, outcome)))
  {
    if i < |p.workers| && p.workers[i].Busy? { FinishConserves(p, i, outcome); }
  }

  /** A waiting worker leaves nothing behind when it is cancelled, a busy one its job. */
  lemma CancelConserves<J>(p: Pool<J>, i: nat)
    requires Conserved(p)
    ensures Conserved(Next(p, Cancel(i)))
  {
    if i < |p.workers| {
      if p.workers[i].Busy? { FinishConserves(p, i, Interrupted); } else { InFlightUpdate(p.workers, i, Exited); }
    }
  }

  lemma PutConserves<J>(p: Pool<J>, j: J)
    requires Conserved(p)
    ensures Conserved(Next(p, Put(j)))
  {
    assert (p.started + p.queue) + [j] == p.started + (p.queue + [j]);
  }

  lemma {:induction false} ConservedNext<J>(p: Pool<J>, e: Event<J>)
    requires Conserved(p)
    ensures Conserved(Next(p, e))
  {
    hide Next;
    match e
    case Spawn(n) => SpawnConserves(p, n);
    case Put(j) => PutConserves(p, j);
    case Get(i) => GetConserves(p, i);
    case Done(i, outcome) => DoneConserves(p, i, outcome);
    case Cancel(i) => CancelConserves(p, i);
  }

  // ---- who is alive ---------------------------------------------------------------------

  /** Every worker is alive or was lost to an interrupted job; a cancelled waiting worker is lost besides. */
  ghost predicate Accounted<J>(p: Pool<J>, cancelled: bool) {
    Live(p.workers) + |p.aborted| <= |p.workers| && (!cancelled ==> Live(p.workers) + |p.aborted| == |p.workers|)
  }

  lemma AccountedNext<J>(p: Pool<J>, e: Event<J>, cancelled: bool)
    requires Accounted(p, cancelled)
    ensures Accounted(Next(p, e), cancelled || e.Cancel?)
  {
    match e
    case Spawn(n) =>
      LiveAppend(p.workers, seq(n, _ => Idle));
      NoneInFlight<J>(seq(n, _ => Idle));
    case Put(j) =>
    case Get(i) => if i < |p.workers| && p.workers[i].Idle? && p.queue != [] { LiveUpdate(p.workers, i, Busy(p.queue[0])); }
    case Done(i, outcome) =>
      if i < |p.workers| && p.workers[i].Busy? {
        LiveUpdate(p.workers, i, if outcome == Interrupted then Exited else Idle);
      }
    case Cancel(i) => if i < |p.workers| { LiveUpdate(p.workers, i, Exited); }
  }

  /** A cancellation, from outside or passing through a job. */
  predicate Loses<J>(e: Event<J>) {
    e.Cancel? || (e.Done? && e.outcome == Interrupted)
  }

  lemma SizeNext<J>(p: Pool<J>, e: Event<J>)
    ensures |Next(p, e).workers| == |p.workers| + if e.Spawn? then e.count else 0
    ensures !Loses(e) ==> Next(p, e).aborted == p.aborted
    ensures Next(p, e).tracked == if e.Spawn? then |p.workers| else p.tracked
  {
  }

  predicate Cancels<J>(schedule: seq<Event<J>>) {
    if schedule == [] then false
    else Cancels(schedule[..|schedule| - 1]) || schedule[|schedule| - 1].Cancel?
  }

  /** Some step of the schedule is a cancellation, from outside or passing through a job. */
  predicate Interrupts<J>(schedule: seq<Event<J>>) {
    if schedule == [] then false
    else
      var e := schedule[|schedule| - 1];
      Interrupts(schedule[..|schedule| - 1]) || Loses(e)
  }

  lemma {:induction false} PoolRun<J>(schedule: seq<Event<J>>)
    ensures var p := Run(Empty(), schedule);
            && Conserved(p) && Accounted(p, Cancels(schedule)) && |p.workers| == Spawned(schedule) && p.tracked <= |p.workers|
            && (!Interrupts(schedule) ==> !Cancels(schedule) && p.aborted == [])
    decreases |schedule|
  {
    hide Next;
    if schedule != [] {
      var s, e := schedule[..|schedule| - 1], schedule[|schedule| - 1];
      PoolRun(s);
      SizeNext(Run(Empty(), s), e);
      ConservedNext(Run(Empty(), s), e);
      AccountedNext(Run(Empty(), s), e, Cancels(s));
    }
  }

  /** Over every schedule: no job is lost or duplicated, jobs start in enqueue order, no more are in
      flight than workers were started, and the unfinished count is what is queued plus what is in
      flight. Without cancellations from outside, the workers lost are exactly as many as the jobs a
      cancellation passed through; so ordinary exceptions, however many, never cost a worker. */
  lemma {:induction false} QueueIsConserved<J>(schedule: seq<Event<J>>)
    ensures var p := Run(Empty(), schedule);
            && multiset(p.enqueued) == multiset(p.queue) + multiset(InFlight(p.workers)) + multiset(p.finished) + multiset(p.aborted)
            && p.started <= p.enqueued
            && |InFlight(p.workers)| <= Spawned(schedule)
            && p.tracked <= |p.workers| == Spawned(schedule)
            && p.unfinished == |p.queue| + |InFlight(p.workers)|
            && (!Cancels(schedule) ==> Live(p.workers) == Spawned(schedule) - |p.aborted|)
            && (!Interrupts(schedule) ==> Live(p.workers) == Spawned(schedule))
  {
    PoolRun(schedule);
    InFlightAtMostOneEach(Run(Empty(), schedule).workers);
  }

  /** The schedule starts the pool at most once, with `count` workers. */
  predicate StartsOnce<J>(schedule: seq<Event<J>>, count: nat) {
    schedule == []
    || (var s, e := schedule[..|schedule| - 1], schedule[|schedule| - 1];
        if e.Spawn? then e.count == count && NeverStarts(s) else StartsOnce(s, count))
  }

  predicate NeverStarts<J>(schedule: seq<Event<J>>) {
    forall i :: 0 <= i < |schedule| ==> !schedule[i].Spawn?
  }

  lemma {:induction false} NoneSpawned<J>(schedule: seq<Event<J>>)
    requires NeverStarts(schedule)
    ensures Spawned(schedule) == 0
    decreases |schedule|
  {
    if schedule != [] { NoneSpawned(schedule[..|schedule| - 1]); }
  }

  lemma {:induction false} OnceSpawned<J>(schedule: seq<Event<J>>, count: nat)
    requires StartsOnce(schedule, count)
    ensures Spawned(schedule) <= count
    decreases |schedule|
  {
    if schedule != [] {
      var s := schedule[..|schedule| - 1];
      if schedule[|s|].Spawn? { NoneSpawned(s); } else { OnceSpawned(s, count); }
    }
  }

  /** The concurrency limit: a queue that is started once, as the application does, never has more than
      max(1, limit) jobs in flight, whatever happens. */
  lemma {:induction false} AtMostLimitInFlight<J>(schedule: seq<Event<J>>, limit: int)
    requires StartsOnce(schedule, Max(1, limit))
    ensures |InFlight(Run(Empty(), schedule).workers)| <= Max(1, limit)
  {
    QueueIsConserved(schedule);
    OnceSpawned(schedule, Max(1, limit));
  }

  lemma RunSnoc<J>(p: Pool<J>, schedule: seq<Event<J>>, e: Event<J>)
    ensures Run(p, schedule + [e]) == Next(Run(p, schedule), e)
  {
    assert (schedule + [e])[..|schedule|] == schedule;
  }

  /** Cancelling the workers from one index up to another, in order. */
  function CancelAll<J>(from: nat, to: nat): seq<Event<J>>
    requires from <= to
  {
    seq(to - from, i requires 0 <= i < to - from => Cancel(from + i))
  }

  lemma {:induction false} ConservedRun<J>(p: Pool<J>, schedule: seq<Event<J>>)
    requires Conserved(p)
    ensures Conserved(Run(p, schedule))
    decreases |schedule|
  {
    hide Next;
    if schedule != [] {
      ConservedRun(p, schedule[..|schedule| - 1]);
      ConservedNext(Run(p, schedule[..|schedule| - 1]), schedule[|schedule| - 1]);
    }
  }

  lemma AllStopped<J>(start: Pool<J>, schedule: seq<Event<J>>)
    requires Conserved(start)
    requires var p := Run(start, schedule); forall i :: 0 <= i < |p.workers| ==> p.workers[i].Exited?
    ensures var p := Run(start, schedule); InFlight(p.workers) == [] && p.unfinished == |p.queue|
  {
    hide Next;
    ConservedRun(start, schedule);
    NoneInFlight(Run(start, schedule).workers);
  }

  // ---- the queue object ------------------------------------------------------------------

  class JobQueue<J(==)> {
    var queue: seq<J>
    var workers: seq<Worker<J>>
    var tracked: nat
    const concurrency: nat
    var unfinished: int
    ghost var enqueued: seq<J>
    ghost var started: seq<J>
    ghost var finished: seq<J>
    ghost var aborted: seq<J>

    ghost function View(): Pool<J>
      reads this
    {
      Pool(queue, workers, tracked, unfinished, enqueued, started, finished, aborted)
    }

    constructor (limit: int)
      ensures concurrency == Max(1, limit) && View() == Empty()
    {
      queue, workers, tracked, concurrency, unfinished := [], [], 0, Max(1, limit), 0;
      enqueued, started, finished, aborted := [], [], [], [];
    }

    /** Spawn the workers. A second start forgets the earlier ones, which go on working. */
    method Start()
      modifies this
      ensures View() == Next(old(View()), Spawn(concurrency))
      ensures tracked == |old(workers)| && workers == old(workers) + seq(concurrency, _ => Idle)
    {
      tracked := |workers|;
      workers := workers + seq(concurrency, _ => Idle);
    }

    method Enqueue(job: J)
      modifies this
      ensures View() == Next(old(View()), Put(job))
      ensures queue == old(queue) + [job] && unfinished == old(unfinished) + 1 && workers == old(workers)
    {
      queue := queue + [job];
      unfinished := unfinished + 1;
      enqueued := enqueued + [job];
    }

    /** A waiting worker is handed the oldest job. */
    method Take(i: nat)
      modifies this
      ensures View() == Next(old(View()), Get(i))
      ensures if i < |old(workers)| && old(workers)[i].Idle? && old(queue) != [] then
                old(queue) == [old(queue)[0]] + queue && workers == old(workers)[i := Busy(old(queue)[0])]
              else queue == old(queue) && workers == old(workers)
    {
      if i < |workers| && workers[i].Idle? && queue != [] {
        var job := queue[0];
        queue := queue[1..];
        workers := workers[i := Busy(job)];
        started := started + [job];
      }
    }

    /** The rest of a worker's round: the handlers decide whether the loop goes on, and in any case the
        job is marked done. */
    method Complete(i: nat, outcome: Outcome)
      modifies this
      ensures View() == Next(old(View()), Done(i, outcome))
      ensures queue == old(queue)
      ensures i < |old(workers)| && old(workers)[i].Busy? ==>
                unfinished == old(unfinished) - 1 && workers == old(workers)[i := if outcome == Interrupted then Exited else Idle]
      ensures tracked == old(tracked)
    {
      if i < |workers| && workers[i].Busy? {
        var job := workers[i].job;
        var resumes;
        match outcome {
          case Returned => resumes := true;
          case Raised => resumes := true;          // logged: one bad job must not kill the worker
          case Interrupted => resumes := false;    // raised again
        }
        unfinished := unfinished - 1;
        if resumes {
          finished := finished + [job];
          workers := workers[i := Idle];
        } else {
          aborted := aborted + [job];
          workers := workers[i := Exited];
        }
      }
    }

    /** A cancellation reaches a worker: inside the processor it passes through the job, while waiting
        it ends the loop at once. */
    method Interrupt(i: nat)
      modifies this
      ensures View() == Next(old(View()), Cancel(i))
      ensures i < |old(workers)| ==> workers == old(workers)[i := Exited]
      ensures tracked == old(tracked)
    {
      if i < |workers| {
        if workers[i].Busy? {
          Complete(i, Interrupted);
        } else {
          workers := workers[i := Exited];
        }
      }
    }

    /** Cancel every worker of the latest start, in order. If it was the only start, nothing is left in
        flight, and what is queued stays counted as unfinished. */
    method StopAll()
      requires tracked <= |workers| && Conserved(View())
      modifies this
      ensures View() == Run(old(View()), CancelAll(old(tracked), |old(workers)|))
      ensures forall i :: old(tracked) <= i < |workers| ==> workers[i].Exited?
      ensures old(tracked) == 0 ==> InFlight(workers) == [] && unfinished == |queue|
    {
      hide Next;
      ghost var start := View();
      assert CancelAll<J>(tracked, tracked) == [];
      var i := tracked;
      while i < |workers|
        invariant tracked == old(tracked) <= i <= |workers| == |old(workers)|
        invariant View() == Run(start, CancelAll(tracked, i))
        invariant forall k :: tracked <= k < i ==> workers[k].Exited?
      {
        RunSnoc(start, CancelAll(tracked, i), Cancel(i));
        assert CancelAll<J>(tracked, i + 1) == CancelAll(tracked, i) + [Cancel(i)];
        Interrupt(i);
        i := i + 1;
      }
      if tracked == 0 { AllStopped(start, CancelAll(tracked, i)); }
    }
  }
}
