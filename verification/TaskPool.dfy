/**
 The bounded task pool as a state machine: no submitted job is lost or counted twice, and a close with no submit still
 blocked ends every worker after every job has run. Each stretch of the event loop between two awaits is one step.
 */
module TaskPool {
  datatype Item = Job(id: nat) | Stop

  /** `cancelled`: the worker's task was cancelled and has not noticed yet. */
  datatype Worker = Idle(cancelled: bool) | Busy(job: nat, cancelled: bool) | Exited

  /**
   `Joining` waits for the last unfinished job; once that has ended, the close is `Drained` until its own turn comes;
   `Stopping` waits for the workers; `Broken` is the exception the close raises when the stop marks do not fit. `clean`
   says that no submit was blocked when the last job ended.
   */
  datatype Phase =
    | Created | Running | Joining | Drained(clean: bool) | Stopping(timedOut: bool, clean: bool)
    | Closed(timedOut: bool, clean: bool) | Broken(clean: bool)

  datatype Pool = Pool(
    phase: Phase,
    workerCount: nat,
    queueSize: nat,
    queue: seq<Item>,
    workers: seq<Worker>,
    blocked: seq<nat>,      // jobs whose submit waits for room
    submitted: nat,
    succeeded: nat,
    failed: nat,
    cancelled: nat,
    started: seq<nat>,      // every job a worker took, in order
    interrupted: nat)       // those of them that ended by honouring a cancel

  function Jobs(queue: seq<Item>): nat {
    if queue == [] then 0 else Jobs(queue[..|queue| - 1]) + if queue[|queue| - 1].Job? then 1 else 0
  }

  function Active(workers: seq<Worker>): nat {
    if workers == [] then 0 else Active(workers[..|workers| - 1]) + if workers[|workers| - 1].Busy? then 1 else 0
  }

  function Alive(workers: seq<Worker>): nat {
    if workers == [] then 0 else Alive(workers[..|workers| - 1]) + if workers[|workers| - 1].Exited? then 0 else 1
  }

  function Repeat<T>(n: nat, x: T): (s: seq<T>)
    ensures |s| == n && forall i :: 0 <= i < n ==> s[i] == x
  {
    if n == 0 then [] else Repeat(n - 1, x) + [x]
  }

  function CancelAll(workers: seq<Worker>): (cancelled: seq<Worker>)
    ensures |cancelled| == |workers|
  {
    seq(|workers|, i requires 0 <= i < |workers| =>
      if workers[i].Exited? then Exited else workers[i].(cancelled := true))
  }

  datatype Step =
    | Start
    | Submit(job: nat)             // queues, or waits when the queue is full
    | TrySubmit(job: nat)          // queues, or drops
    | Unblock(i: nat)              // a waiting submit finds room, whatever the pool's state is by then
    | Take(w: nat)
    | Finish(w: nat, ok: bool)     // a cancelled job may also finish
    | HonourCancel(w: nat)
    | BeginClose
    | Resume                       // the close goes on after the drain
    | JoinTimeout
    | CloseDone

  predicate Allowed(p: Pool, s: Step) {
    match s
    case Start => p.phase.Created?
    case Submit(_) => p.phase.Running?
    case TrySubmit(_) => true
    case Unblock(i) => i < |p.blocked| && |p.queue| < p.queueSize
    case Take(w) => w < |p.workers| && p.workers[w] == Idle(false) && p.queue != []
    case Finish(w, _) => w < |p.workers| && p.workers[w].Busy?
    case HonourCancel(w) => w < |p.workers| && !p.workers[w].Exited? && p.workers[w].cancelled
    case BeginClose => p.phase.Created? || p.phase.Running?
    case Resume => p.phase.Drained?
    case JoinTimeout => p.phase.Joining? || p.phase.Drained?
    case CloseDone => p.phase.Stopping? && Alive(p.workers) == 0
  }

  function Queued(p: Pool, job: nat): Pool {
    p.(queue := p.queue + [Job(job)], submitted := p.submitted + 1)
  }

  predicate AtRest(p: Pool) {
    p.queue == [] && Active(p.workers) == 0
  }

  function Room(p: Pool): nat {
    if |p.queue| < p.queueSize then p.queueSize - |p.queue| else 0
  }

  /** One stop mark for each worker, put without waiting. */
  function Marked(p: Pool, clean: bool): Pool {
    if p.workerCount <= Room(p) then p.(queue := p.queue + Repeat(p.workerCount, Stop), phase := Stopping(false, clean))
    else p.(queue := p.queue + Repeat(Room(p), Stop), phase := Broken(clean))
  }

  /** The end of the last unfinished job wakes a waiting close. */
  function Settled(p: Pool): Pool {
    if p.phase.Joining? && AtRest(p) then p.(phase := Drained(p.blocked == [])) else p
  }

  function Taken(p: Pool, s: Step): Pool
    requires Allowed(p, s)
  {
    match s
    case Start => p.(phase := Running, workers := Repeat(p.workerCount, Idle(false)))
    case Submit(job) => if |p.queue| < p.queueSize then Queued(p, job) else p.(blocked := p.blocked + [job])
    case TrySubmit(job) => if p.phase.Running? && |p.queue| < p.queueSize then Queued(p, job) else p
    case Unblock(i) => Queued(p, p.blocked[i]).(blocked := p.blocked[..i] + p.blocked[i + 1..])
    case Take(w) =>
      p.(queue := p.queue[1..],
         workers := p.workers[w := if p.queue[0].Job? then Busy(p.queue[0].id, false) else Exited],
         started := if p.queue[0].Job? then p.started + [p.queue[0].id] else p.started)
    case Finish(w, ok) =>
      var done := p.(workers := p.workers[w := Idle(false)]);
      Settled(if ok then done.(succeeded := p.succeeded + 1) else done.(failed := p.failed + 1))
    case HonourCancel(w) =>
      var ended := if p.workers[w].Busy? then 1 else 0;
      p.(workers := p.workers[w := Exited], cancelled := p.cancelled + ended, interrupted := p.interrupted + ended)
    case BeginClose =>
      if p.phase.Created? then p.(phase := Closed(false, true))
      else if AtRest(p) then Marked(p, p.blocked == [])
      else p.(phase := Joining)
    case Resume => Marked(p, p.phase.clean)
    case JoinTimeout =>
      p.(queue := [], cancelled := p.cancelled + Jobs(p.queue), workers := CancelAll(p.workers), phase := Stopping(true, false))
    case CloseDone => p.(phase := Closed(p.phase.timedOut, p.phase.clean))
  }

  // ---- Counting ----

  lemma {:induction false} JobsConcat(a: seq<Item>, b: seq<Item>)
    ensures Jobs(a + b) == Jobs(a) + Jobs(b)
  {
    if b == [] {
      assert a + b == a;
    } else {
      JobsConcat(a, b[..|b| - 1]);
      assert (a + b)[..|a + b| - 1] == a + b[..|b| - 1];
    }
  }

  lemma {:induction false} StopsAreNoJobs(n: nat)
    ensures Jobs(Repeat(n, Stop)) == 0
  {
    if n > 0 {
      StopsAreNoJobs(n - 1);
      assert Repeat(n, Stop)[..n - 1] == Repeat(n - 1, Stop);
    }
  }

  lemma {:induction false} WorkerChanges(workers: seq<Worker>, w: nat, x: Worker)
    requires w < |workers|
    ensures Active(workers[w := x]) == Active(workers) + (if x.Busy? then 1 else 0) - (if workers[w].Busy? then 1 else 0)
    ensures Alive(workers[w := x]) == Alive(workers) + (if x.Exited? then 0 else 1) - (if workers[w].Exited? then 0 else 1)
  {
    var last := |workers| - 1;
    if w < last {
      WorkerChanges(workers[..last], w, x);
      assert workers[w := x][..last] == workers[..last][w := x];
    } else {
      assert workers[w := x][..last] == workers[..last];
    }
  }

  lemma {:induction false} CancelKeepsActive(workers: seq<Worker>)
    ensures Active(CancelAll(workers)) == Active(workers)
  {
    if workers != [] {
      CancelKeepsActive(workers[..|workers| - 1]);
      assert CancelAll(workers)[..|workers| - 1] == CancelAll(workers[..|workers| - 1]);
    }
  }

  lemma {:induction false} FreshWorkers(n: nat)
    ensures Active(Repeat(n, Idle(false))) == 0 && Alive(Repeat(n, Idle(false))) == n
  {
    if n > 0 {
      FreshWorkers(n - 1);
      assert Repeat(n, Idle(false))[..n - 1] == Repeat(n - 1, Idle(false));
    }
  }

  // ---- Conservation ----

  ghost predicate Conserved(p: Pool) {
    p.submitted == Jobs(p.queue) + Active(p.workers) + p.succeeded + p.failed + p.cancelled
  }

  lemma QueuedConserves(p: Pool, job: nat)
    requires Conserved(p)
    ensures Conserved(Queued(p, job))
  {
    JobsConcat(p.queue, [Job(job)]);
    assert Jobs([Job(job)]) == 1 by { assert [Job(job)][..0] == []; }
  }

  lemma TakeConserves(p: Pool, w: nat)
    requires Conserved(p) && Allowed(p, Take(w))
    ensures Conserved(Taken(p, Take(w)))
  {
    var first := p.queue[0];
    assert p.queue == [first] + p.queue[1..];
    JobsConcat([first], p.queue[1..]);
    assert [first][..0] == [];
    WorkerChanges(p.workers, w, if first.Job? then Busy(first.id, false) else Exited);
  }

  lemma MarkedConserves(p: Pool, clean: bool)
    requires Conserved(p)
    ensures Conserved(Marked(p, clean))
  {
    hide Active;
    var n := if p.workerCount <= Room(p) then p.workerCount else Room(p);
    JobsConcat(p.queue, Repeat(n, Stop));
    StopsAreNoJobs(n);
  }

  lemma StepConserves(p: Pool, s: Step)
    requires Conserved(p) && Allowed(p, s) && (s.Start? ==> p.workers == [])
    ensures Conserved(Taken(p, s))
  {
    hide Jobs;
    hide Active;
    hide Alive;
    match s
    case Start => FreshWorkers(p.workerCount); NoneActive();
    case Submit(job) => QueuedConserves(p, job);
    case TrySubmit(job) => QueuedConserves(p, job);
    case Unblock(i) => QueuedConserves(p, p.blocked[i]);
    case Take(w) => TakeConserves(p, w);
    case Finish(w, _) => WorkerChanges(p.workers, w, Idle(false));
    case HonourCancel(w) => WorkerChanges(p.workers, w, Exited);
    case BeginClose => MarkedConserves(p, p.blocked == []);
    case Resume => MarkedConserves(p, p.phase.clean);
    case JoinTimeout => CancelKeepsActive(p.workers); NoneActive();
    case _ =>
  }

  lemma NoneActive()
    ensures Jobs([]) == 0 && Active([]) == 0
  {
  }

  // ---- The invariant of every run ----

  /** After a clean drain only stop marks are queued, one per worker still alive, and every job has run. */
  ghost predicate CleanStop(p: Pool) {
    && p.blocked == [] && p.cancelled == 0 && Active(p.workers) == 0
    && |p.queue| == Alive(p.workers)
    && (forall i :: 0 <= i < |p.queue| ==> p.queue[i] == Stop)
    && (forall w :: 0 <= w < |p.workers| ==> p.workers[w] in {Idle(false), Exited})
  }

  /** Until a close has gone on, every worker lives and nothing was cancelled. */
  ghost predicate AllAtWork(p: Pool) {
    && p.cancelled == p.interrupted == 0 && Alive(p.workers) == |p.workers| == p.workerCount
    && (forall w :: 0 <= w < |p.workers| ==> !p.workers[w].Exited? && !p.workers[w].cancelled)
    && (forall i :: 0 <= i < |p.queue| ==> p.queue[i].Job?)
  }

  /** Every job taken is active or ended in one of the three ways. */
  ghost predicate Tallied(p: Pool) {
    |p.started| == Active(p.workers) + p.succeeded + p.failed + p.interrupted
  }

  ghost predicate Inv(p: Pool) {
    && Conserved(p) && Tallied(p) && |p.queue| <= p.queueSize && p.workerCount >= 1 && p.queueSize >= 1
    && (p.phase.Created? ==> p.workers == [] && p.queue == [] && p.blocked == [] && p.submitted == p.interrupted == 0)
    && (p.phase.Running? || p.phase.Joining? || p.phase.Drained? ==> AllAtWork(p))
    && (p.phase.Joining? ==> !AtRest(p))
    && (p.phase.Drained? && p.phase.clean ==> AtRest(p) && p.blocked == [])
    && ((p.phase.Stopping? || p.phase.Closed?) && !p.phase.timedOut && p.phase.clean ==> CleanStop(p))
    && (p.phase.Closed? ==> Alive(p.workers) == 0)
    && (p.phase.Broken? && p.phase.clean ==> p.workerCount > p.queueSize)
  }

  /** The end of a job counts it by how it went, and frees its worker. */
  lemma FinishCounts(p: Pool, w: nat, ok: bool)
    requires Allowed(p, Finish(w, ok))
    ensures var p' := Taken(p, Finish(w, ok));
      && p'.succeeded == p.succeeded + (if ok then 1 else 0) && p'.failed == p.failed + (if ok then 0 else 1)
      && p'.cancelled == p.cancelled && |p'.workers| == |p.workers| && p'.workers[w] == Idle(false)
  {
    hide Active;
  }

  lemma {:induction false} NoneBusy(workers: seq<Worker>)
    requires Active(workers) == 0
    ensures forall w :: 0 <= w < |workers| ==> !workers[w].Busy?
  {
    if workers != [] {
      NoneBusy(workers[..|workers| - 1]);
    }
  }

  lemma {:induction false} NoJobsHere(queue: seq<Item>)
    requires forall i :: 0 <= i < |queue| ==> queue[i] == Stop
    ensures Jobs(queue) == 0
  {
    if queue != [] {
      NoJobsHere(queue[..|queue| - 1]);
    }
  }

  lemma TakeKeeps(p: Pool, w: nat)
    requires Inv(p) && Allowed(p, Take(w))
    ensures Inv(Taken(p, Take(w)))
  {
    TakeConserves(p, w);
    hide Conserved;
    hide Jobs;
    hide Active;
    hide Alive;
    WorkerChanges(p.workers, w, if p.queue[0].Job? then Busy(p.queue[0].id, false) else Exited);
  }

  lemma FinishKeeps(p: Pool, w: nat, ok: bool)
    requires Inv(p) && Allowed(p, Finish(w, ok))
    ensures Inv(Taken(p, Finish(w, ok)))
  {
    hide Conserved;
    hide Jobs;
    hide Active;
    hide Alive;
    StepConserves(p, Finish(w, ok));
    WorkerChanges(p.workers, w, Idle(false));
    NotBusyInClean(p, w);
    SomeBusy(p.workers, w);
    hide CleanStop;
  }

  lemma {:induction false} SomeBusy(workers: seq<Worker>, w: nat)
    requires w < |workers| && workers[w].Busy?
    ensures Active(workers) > 0
  {
    if w < |workers| - 1 {
      SomeBusy(workers[..|workers| - 1], w);
    }
  }

  lemma HonourKeeps(p: Pool, w: nat)
    requires Inv(p) && Allowed(p, HonourCancel(w))
    ensures Inv(Taken(p, HonourCancel(w)))
  {
    hide Jobs;
    hide Active;
    hide Alive;
    WorkerChanges(p.workers, w, Exited);
  }

  lemma StartKeeps(p: Pool)
    requires Inv(p) && Allowed(p, Start)
    ensures Inv(Taken(p, Start))
  {
    hide Jobs;
    hide Active;
    hide Alive;
    FreshWorkers(p.workerCount);
    NoneActive();
  }

  lemma MarkedKeeps(p: Pool, clean: bool)
    requires Inv(p) && (p.phase.Running? || p.phase.Drained?)
    requires clean ==> AtRest(p) && p.blocked == []
    ensures Inv(Marked(p, clean))
  {
    MarkedConserves(p, clean);
    hide Conserved;
    hide Jobs;
    hide Active;
    hide Alive;
    if clean {
      NoneBusy(p.workers);
    }
  }

  lemma TimeoutKeeps(p: Pool)
    requires Inv(p) && Allowed(p, JoinTimeout)
    ensures Inv(Taken(p, JoinTimeout))
  {
    StepConserves(p, JoinTimeout);
    hide Conserved;
    hide Jobs;
    CancelKeepsActive(p.workers);
    hide Active;
    hide Alive;
  }

  lemma QueueKeeps(p: Pool, s: Step)
    requires Inv(p) && Allowed(p, s) && (s.Submit? || s.TrySubmit? || s.Unblock?)
    ensures Inv(Taken(p, s))
  {
    StepConserves(p, s);
    hide Conserved;
    hide Jobs;
    hide Active;
    hide Alive;
  }

  lemma CloseKeeps(p: Pool, s: Step)
    requires Inv(p) && Allowed(p, s) && (s.BeginClose? || s.CloseDone?)
    ensures Inv(Taken(p, s))
  {
    if s.BeginClose? && p.phase.Running? && AtRest(p) {
      MarkedKeeps(p, p.blocked == []);
    }
    hide Marked;
    hide Jobs;
    hide Active;
    hide Alive;
    NoneAlive();
    NoneActive();
  }

  lemma StepKeeps(p: Pool, s: Step)
    requires Inv(p) && Allowed(p, s)
    ensures Inv(Taken(p, s))
  {
    hide Inv;
    match s
    case Start => StartKeeps(p);
    case Submit(_) => QueueKeeps(p, s);
    case TrySubmit(_) => QueueKeeps(p, s);
    case Unblock(_) => QueueKeeps(p, s);
    case Take(w) => TakeKeeps(p, w);
    case Finish(w, ok) => FinishKeeps(p, w, ok);
    case HonourCancel(w) => HonourKeeps(p, w);
    case BeginClose => CloseKeeps(p, s);
    case Resume => ResumeKeeps(p);
    case JoinTimeout => TimeoutKeeps(p);
    case CloseDone => CloseKeeps(p, s);
  }

  lemma ResumeKeeps(p: Pool)
    requires Inv(p) && Allowed(p, Resume)
    ensures Inv(Taken(p, Resume))
  {
    MarkedKeeps(p, p.phase.clean);
  }

  lemma NotBusyInClean(p: Pool, w: nat)
    requires w < |p.workers| && p.workers[w].Busy?
    ensures !CleanStop(p)
  {
    hide Active;
    hide Alive;
  }

  lemma NoneAlive()
    ensures Alive([]) == 0 && Active([]) == 0
  {
  }

  ghost predicate IsStart(p: Pool) {
    && p.phase.Created? && p.workers == [] && p.queue == [] && p.blocked == []
    && p.submitted == p.succeeded == p.failed == p.cancelled == p.interrupted == 0 && p.started == []
    && p.workerCount >= 1 && p.queueSize >= 1
  }

  ghost predicate Follows(p: Pool, p': Pool) {
    exists s :: Allowed(p, s) && p' == Taken(p, s)
  }

  ghost predicate IsRun(run: seq<Pool>) {
    run != [] && IsStart(run[0]) && forall i :: 0 <= i < |run| - 1 ==> Follows(run[i], run[i + 1])
  }

  lemma {:induction false} InvariantHolds(run: seq<Pool>, i: nat)
    requires IsRun(run) && i < |run|
    ensures Inv(run[i])
    decreases i
  {
    if i > 0 {
      hide Inv;
      InvariantHolds(run, i - 1);
      assert Follows(run[i - 1], run[i - 1 + 1]);
      var s :| Allowed(run[i - 1], s) && run[i] == Taken(run[i - 1], s);
      StepKeeps(run[i - 1], s);
    }
  }

  /** No job is lost or counted twice, in every reachable state. */
  lemma JobsAreConserved(run: seq<Pool>, i: nat)
    requires IsRun(run) && i < |run|
    ensures var p := run[i]; p.submitted == Jobs(p.queue) + Active(p.workers) + p.succeeded + p.failed + p.cancelled
  {
    InvariantHolds(run, i);
  }

  /** A close that did not time out, with no submit blocked when the queue drained, ran every job and cancelled none. */
  lemma CleanCloseRanEverything(run: seq<Pool>, i: nat)
    requires IsRun(run) && i < |run| && run[i].phase == Closed(false, true)
    ensures var p := run[i];
      && p.submitted == p.succeeded + p.failed && p.cancelled == 0
      && p.queue == [] && Alive(p.workers) == 0 && p.blocked == []
  {
    InvariantHolds(run, i);
    NoJobsHere(run[i].queue);
  }

  ghost predicate Reaches(p: Pool, p': Pool, n: nat)
    decreases n
  {
    if n == 0 then p == p' else exists mid :: Reaches(p, mid, n - 1) && Follows(mid, p')
  }

  lemma StepBetween(p: Pool, p': Pool) returns (s: Step)
    requires Follows(p, p')
    ensures Allowed(p, s) && p' == Taken(p, s)
  {
    hide Taken;
    hide Allowed;
    s :| Allowed(p, s) && p' == Taken(p, s);
  }

  lemma NoStep(p: Pool, q: Pool)
    requires Reaches(p, q, 0)
    ensures p == q
  {
  }

  lemma LastStep(p: Pool, q: Pool, n: nat) returns (mid: Pool, s: Step)
    requires n > 0 && Reaches(p, q, n)
    ensures Reaches(p, mid, n - 1) && Allowed(mid, s) && q == Taken(mid, s)
  {
    hide Follows;
    mid :| Reaches(p, mid, n - 1) && Follows(mid, q);
    hide Reaches;
    s := StepBetween(mid, q);
  }

  lemma OneMore(p: Pool, mid: Pool, n: nat, s: Step)
    requires Reaches(p, mid, n) && Allowed(mid, s)
    ensures Reaches(p, Taken(mid, s), n + 1)
  {
    assert Follows(mid, Taken(mid, s));
  }

  lemma {:induction false} SomeAlive(workers: seq<Worker>) returns (w: nat)
    requires Alive(workers) > 0
    ensures w < |workers| && !workers[w].Exited?
  {
    if workers[|workers| - 1].Exited? {
      w := SomeAlive(workers[..|workers| - 1]);
    } else {
      w := |workers| - 1;
    }
  }

  /** A clean stop never gets stuck: every worker takes its stop mark, and the pool closes. */
  lemma {:induction false} CleanStopEnds(start: Pool, n: nat, p: Pool) returns (closed: Pool, m: nat)
    requires Reaches(start, p, n) && Inv(p) && p.phase == Stopping(false, true)
    ensures Reaches(start, closed, m) && closed.phase == Closed(false, true)
    decreases |p.queue|
  {
    hide Reaches;
    hide Conserved;
    hide Active;
    if p.queue == [] {
      OneMore(start, p, n, CloseDone);
      closed, m := Taken(p, CloseDone), n + 1;
    } else {
      var w := SomeAlive(p.workers);
      hide Alive;
      assert Allowed(p, Take(w));
      OneMore(start, p, n, Take(w));
      StepKeeps(p, Take(w));
      closed, m := CleanStopEnds(start, n + 1, Taken(p, Take(w)));
    }
  }

  // ---- When the stop marks fit ----

  /** How many jobs may stand before the stop marks: those queued since the drain, and those of blocked submits. */
  function Backlog(p: Pool): nat {
    |p.blocked| + if p.phase.Drained? then |p.queue| else 0
  }

  /** A close under way that cannot raise any more. */
  ghost predicate CannotBreak(p: Pool) {
    match p.phase
    case Joining => p.workerCount + Backlog(p) <= p.queueSize
    case Drained(_) => p.workerCount + Backlog(p) <= p.queueSize
    case Stopping(_, _) => true
    case Closed(_, _) => true
    case _ => false
  }

  lemma StaysUnbroken(p: Pool, s: Step)
    requires CannotBreak(p) && Allowed(p, s)
    ensures CannotBreak(Taken(p, s))
  {
    hide Jobs;
    hide Active;
    hide Alive;
  }

  lemma {:induction false} NeverBreaks(p: Pool, q: Pool, n: nat)
    requires CannotBreak(p) && Reaches(p, q, n)
    ensures CannotBreak(q)
    decreases n
  {
    hide *;
    if n == 0 {
      NoStep(p, q);
    } else {
      var mid, s := LastStep(p, q, n);
      NeverBreaks(p, mid, n - 1);
      StaysUnbroken(mid, s);
    }
  }

  /** Blocked submits whose turn comes before the close's refill the queue, and the marks do not fit. */
  lemma {:induction false} RefillBreaks(start: Pool, n: nat, p: Pool) returns (q: Pool, m: nat)
    requires Reaches(start, p, n) && Inv(p) && p.phase.Drained? && p.workerCount + Backlog(p) > p.queueSize
    ensures Reaches(start, q, m) && q.phase.Broken?
    decreases |p.blocked|
  {
    hide Reaches;
    hide Conserved;
    hide Jobs;
    hide Active;
    hide Alive;
    if p.blocked == [] || |p.queue| == p.queueSize {
      OneMore(start, p, n, Resume);
      q, m := Taken(p, Resume), n + 1;
    } else {
      OneMore(start, p, n, Unblock(0));
      QueueKeeps(p, Unblock(0));
      q, m := RefillBreaks(start, n + 1, Taken(p, Unblock(0)));
    }
  }

  lemma {:induction false} BusyOne(workers: seq<Worker>) returns (w: nat)
    requires Active(workers) > 0
    ensures w < |workers| && workers[w].Busy?
  {
    if workers[|workers| - 1].Busy? {
      w := |workers| - 1;
    } else {
      w := BusyOne(workers[..|workers| - 1]);
    }
  }

  /** A waiting close can always come to its drain with every submit blocked now still blocked. */
  lemma {:induction false} CanDrain(start: Pool, n: nat, p: Pool) returns (q: Pool, m: nat)
    requires Reaches(start, p, n) && Inv(p) && p.phase.Joining?
    ensures Reaches(start, q, m) && Inv(q) && q.phase == Drained(p.blocked == []) && AtRest(q) && q.blocked == p.blocked
    ensures q.workerCount == p.workerCount && q.queueSize == p.queueSize
    decreases |p.queue|, Active(p.workers)
  {
    hide Reaches;
    var s;
    if Active(p.workers) > 0 {
      var w := BusyOne(p.workers);
      s := Finish(w, true);
      WorkerChanges(p.workers, w, Idle(false));
    } else {
      NoneBusy(p.workers);
      assert p.workers[0] == Idle(false);
      s := Take(0);
    }
    hide Conserved;
    hide Jobs;
    hide Alive;
    OneMore(start, p, n, s);
    StepKeeps(p, s);
    var next := Taken(p, s);
    if next.phase.Drained? {
      q, m := next, n + 1;
    } else {
      q, m := CanDrain(start, n + 1, next);
    }
  }

  ghost predicate MayBreak(p: Pool) {
    exists q, n :: Reaches(p, q, n) && q.phase.Broken?
  }

  lemma ItselfReached(p: Pool)
    ensures Reaches(p, p, 0)
  {
  }

  /**
   When the stop marks fit, for a close that waits or has just drained in any reachable state: whatever happens until its
   turn comes, it cannot raise, exactly when the queue has a place for each worker and for each job that may come before
   the marks. With no submit blocked at the drain that is a place for each worker.
   */
  lemma StopMarksFitIff(run: seq<Pool>, i: nat)
    requires IsRun(run) && i < |run| && (run[i].phase.Joining? || run[i].phase.Drained?)
    ensures MayBreak(run[i]) <==> run[i].workerCount + Backlog(run[i]) > run[i].queueSize
    ensures run[i].phase.Drained? && run[i].phase.clean ==> Backlog(run[i]) == 0
  {
    var p := run[i];
    InvariantHolds(run, i);
    ItselfReached(p);
    hide Reaches;
    if p.workerCount + Backlog(p) > p.queueSize {
      var q, m := p, 0;
      if p.phase.Joining? {
        q, m := CanDrain(p, 0, p);
      }
      q, m := RefillBreaks(p, m, q);
      assert Reaches(p, q, m) && q.phase.Broken?;
    } else if MayBreak(p) {
      var q, n :| Reaches(p, q, n) && q.phase.Broken?;
      NeverBreaks(p, q, n);
    }
  }

  /**
   The same at the call of `close`: with nothing unfinished the marks are put at once and only the workers count; else
   each submit blocked by then may come before them.
   */
  lemma CloseMayBreakIff(run: seq<Pool>, i: nat)
    requires IsRun(run) && i < |run| && run[i].phase.Running?
    ensures var p := run[i];
      MayBreak(Taken(p, BeginClose)) <==> p.workerCount + (if AtRest(p) then 0 else |p.blocked|) > p.queueSize
  {
    var p := run[i];
    var closing := Taken(p, BeginClose);
    InvariantHolds(run, i);
    if AtRest(p) {
      ItselfReached(closing);
      if MayBreak(closing) && closing.phase.Stopping? {
        var q, n :| Reaches(closing, q, n) && q.phase.Broken?;
        NeverBreaks(closing, q, n);
      }
    } else {
      var longer := run[..i + 1] + [closing];
      assert Follows(run[i], closing);
      forall k | 0 <= k < |longer| - 1 ensures Follows(longer[k], longer[k + 1]) {
        if k < i {
          assert Follows(run[k], run[k + 1]);
        }
      }
      StopMarksFitIff(longer, i + 1);
    }
  }

  // ---- When a close runs everything ----

  /** The close has not raised, and once it is through without a timeout every job has run. */
  ghost predicate EndsWell(p: Pool) {
    && !p.phase.Broken?
    && (p.phase.Closed? && !p.phase.timedOut ==>
          p.submitted == p.succeeded + p.failed && p.cancelled == 0 && p.queue == [] && p.blocked == [])
  }

  ghost predicate AlwaysEndsWell(p: Pool) {
    forall q, n :: Reaches(p, q, n) ==> EndsWell(q)
  }

  /** A close that nothing can spoil: no submit is blocked, and the marks will fit. */
  ghost predicate Unspoiled(p: Pool) {
    && p.blocked == [] && p.workerCount <= p.queueSize
    && match p.phase
       case Joining => true
       case Drained(clean) => clean
       case Stopping(timedOut, clean) => timedOut || clean
       case Closed(timedOut, clean) => timedOut || clean
       case _ => false
  }

  lemma StaysUnspoiled(p: Pool, s: Step)
    requires Inv(p) && Unspoiled(p) && Allowed(p, s)
    ensures Unspoiled(Taken(p, s))
  {
    hide Conserved;
    hide Jobs;
    hide Active;
    hide Alive;
  }

  lemma UnspoiledEndsWell(p: Pool)
    requires Inv(p) && Unspoiled(p)
    ensures EndsWell(p)
  {
    hide Active;
    hide Alive;
    NoneActive();
  }

  lemma {:induction false} NeverSpoiled(p: Pool, q: Pool, n: nat)
    requires Inv(p) && Unspoiled(p) && Reaches(p, q, n)
    ensures Inv(q) && Unspoiled(q)
    decreases n
  {
    hide *;
    if n == 0 {
      NoStep(p, q);
    } else {
      var mid, s := LastStep(p, q, n);
      NeverSpoiled(p, mid, n - 1);
      StepKeeps(mid, s);
      StaysUnspoiled(mid, s);
    }
  }

  /** The marks are in, and a submit is still blocked. */
  ghost predicate Strands(p: Pool) {
    && p.phase == Stopping(false, false) && p.blocked != []
    && |p.queue| == Alive(p.workers)
    && (forall i :: 0 <= i < |p.queue| ==> p.queue[i] == Stop)
    && (forall w :: 0 <= w < |p.workers| ==> p.workers[w] in {Idle(false), Exited})
  }

  lemma MarksStrand(p: Pool)
    requires AllAtWork(p) && AtRest(p) && p.blocked != [] && p.workerCount <= p.queueSize
    ensures Strands(Marked(p, false))
  {
    NoneBusy(p.workers);
    hide Jobs;
    hide Active;
    hide Alive;
  }

  lemma TakeStrands(p: Pool, w: nat)
    requires Strands(p) && Allowed(p, Take(w))
    ensures Strands(Taken(p, Take(w)))
  {
    WorkerChanges(p.workers, w, Exited);
    hide Active;
    hide Alive;
  }

  /** Every worker takes its mark, and the pool closes on the blocked submit. */
  lemma {:induction false} StrandsToTheEnd(start: Pool, n: nat, p: Pool) returns (q: Pool, m: nat)
    requires Reaches(start, p, n) && Strands(p)
    ensures Reaches(start, q, m) && !EndsWell(q)
    decreases |p.queue|
  {
    hide Reaches;
    if p.queue == [] {
      OneMore(start, p, n, CloseDone);
      q, m := Taken(p, CloseDone), n + 1;
    } else {
      var w := SomeAlive(p.workers);
      hide Alive;
      OneMore(start, p, n, Take(w));
      TakeStrands(p, w);
      hide Strands;
      q, m := StrandsToTheEnd(start, n + 1, Taken(p, Take(w)));
    }
  }

  lemma DrainedStrands(p: Pool)
    requires Inv(p) && p.phase == Drained(false) && AtRest(p) && p.blocked != [] && p.workerCount <= p.queueSize
    ensures Allowed(p, Resume) && Strands(Taken(p, Resume))
  {
    MarksStrand(p);
    hide Strands;
    hide Marked;
  }

  lemma WaitingSpoils(p: Pool) returns (q: Pool, m: nat)
    requires Inv(p) && p.phase.Joining? && p.blocked != [] && p.workerCount <= p.queueSize
    ensures Reaches(p, q, m) && !EndsWell(q)
  {
    hide *;
    ItselfReached(p);
    var drained, n := CanDrain(p, 0, p);
    DrainedStrands(drained);
    OneMore(p, drained, n, Resume);
    q, m := StrandsToTheEnd(p, n + 1, Taken(drained, Resume));
  }

  /** A close that finds a submit blocked can end with it still waiting, or raise. */
  lemma BlockedSpoils(p: Pool) returns (q: Pool, m: nat)
    requires Inv(p) && p.phase.Running? && p.blocked != [] && p.workerCount <= p.queueSize
    ensures Reaches(Taken(p, BeginClose), q, m) && !EndsWell(q)
  {
    var closing := Taken(p, BeginClose);
    ItselfReached(closing);
    if AtRest(p) {
      MarksStrand(p);
      hide *;
      q, m := StrandsToTheEnd(closing, 0, closing);
    } else {
      StepKeeps(p, BeginClose);
      hide *;
      q, m := WaitingSpoils(closing);
    }
  }

  /**
   When a call of `close` is sure to run everything: whatever happens after it, it neither raises nor, unless it times
   out, closes on a job that was not run or a submit that still waits, exactly when no submit is blocked at the call and
   the queue has a place for each worker.
   */
  lemma CloseRunsEverythingIff(run: seq<Pool>, i: nat)
    requires IsRun(run) && i < |run| && run[i].phase.Running?
    ensures AlwaysEndsWell(Taken(run[i], BeginClose)) <==> run[i].blocked == [] && run[i].workerCount <= run[i].queueSize
  {
    var p := run[i];
    var closing := Taken(p, BeginClose);
    InvariantHolds(run, i);
    if p.blocked == [] && p.workerCount <= p.queueSize {
      BeginsUnspoiled(p);
      StepKeeps(p, BeginClose);
      hide Inv;
      hide Unspoiled;
      hide EndsWell;
      hide Taken;
      forall q, n | Reaches(closing, q, n) ensures EndsWell(q) {
        NeverSpoiled(closing, q, n);
        UnspoiledEndsWell(q);
      }
    } else if p.workerCount > p.queueSize {
      CloseMayBreakIff(run, i);
      hide Reaches;
      hide Taken;
      var q, n :| Reaches(closing, q, n) && q.phase.Broken?;
      assert !EndsWell(q);
    } else {
      var q, n := BlockedSpoils(p);
      hide Reaches;
    }
  }

  lemma BeginsUnspoiled(p: Pool)
    requires Inv(p) && p.phase.Running? && p.blocked == [] && p.workerCount <= p.queueSize
    ensures Unspoiled(Taken(p, BeginClose))
  {
    hide Conserved;
    hide Jobs;
    hide Active;
    hide Alive;
  }

  // ---- After a timeout ----

  function Ids(queue: seq<Item>): seq<nat> {
    if queue == [] then []
    else
      var front, last := Ids(queue[..|queue| - 1]), queue[|queue| - 1];
      if last.Job? then front + [last.id] else front
  }

  lemma {:induction false} IdsConcat(a: seq<Item>, b: seq<Item>)
    ensures Ids(a + b) == Ids(a) + Ids(b)
  {
    if b == [] {
      assert a + b == a;
    } else {
      IdsConcat(a, b[..|b| - 1]);
      assert (a + b)[..|a + b| - 1] == a + b[..|b| - 1];
    }
  }

  /** Every job started, queued or blocked, each as often as it is there. */
  ghost function Known(p: Pool): multiset<nat> {
    multiset(p.started) + multiset(Ids(p.queue)) + multiset(p.blocked)
  }

  /** What a timed-out close leaves of the pool it found: its queue is dropped, and nothing in it is ever started. */
  ghost predicate AfterTimeout(before: Pool, p: Pool) {
    && (p.phase.Stopping? || p.phase.Closed?) && p.phase.timedOut
    && p.cancelled == Jobs(before.queue) + p.interrupted
    && before.started <= p.started
    && Known(p) == multiset(before.started) + multiset(before.blocked)
  }

  lemma TakeKnows(p: Pool, w: nat)
    requires Allowed(p, Take(w))
    ensures Known(Taken(p, Take(w))) == Known(p)
  {
    hide Ids;
    var first := p.queue[0];
    assert p.queue == [first] + p.queue[1..];
    IdsConcat([first], p.queue[1..]);
    OneId(first);
  }

  lemma OneId(x: Item)
    ensures Ids([x]) == if x.Job? then [x.id] else []
  {
    assert [x][..0] == [];
  }

  lemma UnblockKnows(p: Pool, i: nat)
    requires Allowed(p, Unblock(i))
    ensures Known(Taken(p, Unblock(i))) == Known(p)
  {
    hide Ids;
    assert p.blocked == p.blocked[..i] + [p.blocked[i]] + p.blocked[i + 1..];
    IdsConcat(p.queue, [Job(p.blocked[i])]);
    OneId(Job(p.blocked[i]));
  }

  lemma StaysAfterTimeout(before: Pool, p: Pool, s: Step)
    requires AfterTimeout(before, p) && Allowed(p, s)
    ensures AfterTimeout(before, Taken(p, s))
  {
    hide Jobs;
    hide Active;
    hide Alive;
    hide Ids;
    match s
    case Take(w) => TakeKnows(p, w);
    case Unblock(i) => UnblockKnows(p, i);
    case _ =>
  }

  /**
   In every state after a timed-out join: the jobs queued at the timeout are never run, since whatever was started later or
   is queued now comes from a submit blocked then; and `cancelled` has grown by their number and by the active jobs that
   honoured their cancel, every other job taken being active or ended.
   */
  lemma {:induction false} TimeoutCancelsQueued(run: seq<Pool>, t: nat, j: nat)
    requires IsRun(run) && t < j < |run| && Allowed(run[t], JoinTimeout) && run[t + 1] == Taken(run[t], JoinTimeout)
    ensures var before, p := run[t], run[j];
      && before.started <= p.started
      && Known(p) == multiset(before.started) + multiset(before.blocked)
      && p.cancelled == Jobs(before.queue) + p.interrupted
      && |p.started| == Active(p.workers) + p.succeeded + p.failed + p.interrupted
  {
    InvariantHolds(run, j);
    StaysTimedOut(run, t, j);
  }

  lemma TimesOut(p: Pool)
    requires Inv(p) && Allowed(p, JoinTimeout)
    ensures AfterTimeout(p, Taken(p, JoinTimeout))
  {
    hide Jobs;
    hide Active;
    hide Alive;
    assert Ids([]) == [];
  }

  lemma {:induction false} StaysTimedOut(run: seq<Pool>, t: nat, j: nat)
    requires IsRun(run) && t < j < |run| && Allowed(run[t], JoinTimeout) && run[t + 1] == Taken(run[t], JoinTimeout)
    ensures AfterTimeout(run[t], run[j])
    decreases j
  {
    hide Taken;
    hide Allowed;
    hide AfterTimeout;
    hide Inv;
    if j == t + 1 {
      InvariantHolds(run, t);
      TimesOut(run[t]);
    } else {
      StaysTimedOut(run, t, j - 1);
      assert Follows(run[j - 1], run[j - 1 + 1]);
      hide IsRun;
      var s := StepBetween(run[j - 1], run[j]);
      StaysAfterTimeout(run[t], run[j - 1], s);
    }
  }

  predicate AllCancelled(workers: seq<Worker>) {
    forall w :: 0 <= w < |workers| && !workers[w].Exited? ==> workers[w].cancelled
  }

  /** From a stop after a timeout the pool can close: every worker left can honour its cancel. */
  lemma {:induction false} CancelledCanClose(start: Pool, n: nat, p: Pool) returns (closed: Pool, m: nat)
    requires Reaches(start, p, n) && p.phase.Stopping? && AllCancelled(p.workers)
    ensures Reaches(start, closed, m) && closed.phase == Closed(p.phase.timedOut, p.phase.clean) && Alive(closed.workers) == 0
    ensures closed.queue == p.queue && closed.succeeded == p.succeeded && closed.failed == p.failed
    decreases Alive(p.workers)
  {
    hide Reaches;
    if Alive(p.workers) == 0 {
      OneMore(start, p, n, CloseDone);
      closed, m := Taken(p, CloseDone), n + 1;
    } else {
      var w := SomeAlive(p.workers);
      WorkerChanges(p.workers, w, Exited);
      hide Alive;
      hide Active;
      OneMore(start, p, n, HonourCancel(w));
      closed, m := CancelledCanClose(start, n + 1, Taken(p, HonourCancel(w)));
    }
  }

  /** So a close that times out, in any reachable state, can always end, with nothing left in its queue. */
  lemma TimedOutCanClose(run: seq<Pool>, i: nat) returns (closed: Pool, m: nat)
    requires IsRun(run) && i < |run| && Allowed(run[i], JoinTimeout)
    ensures Reaches(Taken(run[i], JoinTimeout), closed, m) && closed.phase == Closed(true, false) && closed.queue == []
  {
    var p := Taken(run[i], JoinTimeout);
    ItselfReached(p);
    hide Reaches;
    closed, m := CancelledCanClose(p, 0, p);
  }

  // ---- Two runs of a small pool ----

  /** One worker and one place, before it starts. */
  const SMALL := Pool(Created, 1, 1, [], [], [], 0, 0, 0, 0, [], 0)

  function Small(phase: Phase, queue: seq<Item>, worker: Worker, blocked: seq<nat>, submitted: nat, succeeded: nat, started: seq<nat>): Pool {
    Pool(phase, 1, 1, queue, [worker], blocked, submitted, succeeded, 0, 0, started, 0)
  }

  lemma Hop(start: Pool, p: Pool, n: nat, s: Step, p': Pool)
    requires Reaches(start, p, n) && Allowed(p, s) && p' == Taken(p, s)
    ensures Reaches(start, p', n + 1)
  {
    OneMore(start, p, n, s);
  }

  lemma SmallStart()
    ensures Taken(SMALL, Start) == Small(Running, [], Idle(false), [], 0, 0, [])
  {
    assert Repeat(0, Idle(false)) == [];
    assert Repeat(1, Idle(false)) == [Idle(false)];
  }

  lemma SmallSubmit(job: nat)
    ensures Taken(Small(Running, [], Idle(false), [], 0, 0, []), Submit(job)) == Small(Running, [Job(job)], Idle(false), [], 1, 0, [])
  {
    assert [] + [Job(job)] == [Job(job)];
  }

  lemma SmallBlocked(first: nat, job: nat)
    ensures Taken(Small(Running, [Job(first)], Idle(false), [], 1, 0, []), Submit(job))
      == Small(Running, [Job(first)], Idle(false), [job], 1, 0, [])
  {
    assert [] + [job] == [job];
  }

  lemma SmallTake(phase: Phase, item: Item, blocked: seq<nat>, submitted: nat, succeeded: nat, started: seq<nat>)
    ensures var p := Small(phase, [item], Idle(false), blocked, submitted, succeeded, started);
      Allowed(p, Take(0))
      && Taken(p, Take(0)) == Small(phase, [], if item.Job? then Busy(item.id, false) else Exited, blocked, submitted, succeeded,
                                    if item.Job? then started + [item.id] else started)
  {
    var worker := if item.Job? then Busy(item.id, false) else Exited;
    assert [item][1..] == [];
    assert [Idle(false)][0 := worker] == [worker];
  }

  lemma SmallFinish(phase: Phase, job: nat, blocked: seq<nat>)
    requires phase.Running? || phase.Joining?
    ensures var p := Small(phase, [], Busy(job, false), blocked, 1, 0, [job]);
      Allowed(p, Finish(0, true))
      && Taken(p, Finish(0, true)) == Small(if phase.Joining? then Drained(blocked == []) else phase, [], Idle(false), blocked, 1, 1, [job])
  {
    assert [Busy(job, false)][0 := Idle(false)] == [Idle(false)];
    assert [Idle(false)][..0] == [];
  }

  /** The first job is queued, and the submit of the second waits for the only place. */
  lemma Opening()
    ensures Reaches(SMALL, Small(Running, [Job(1)], Idle(false), [2], 1, 0, []), 3)
  {
    ItselfReached(SMALL);
    hide Reaches;
    hide Taken;
    SmallStart();
    Hop(SMALL, SMALL, 0, Start, Small(Running, [], Idle(false), [], 0, 0, []));
    SmallSubmit(1);
    Hop(SMALL, Small(Running, [], Idle(false), [], 0, 0, []), 1, Submit(1), Small(Running, [Job(1)], Idle(false), [], 1, 0, []));
    SmallBlocked(1, 2);
    Hop(SMALL, Small(Running, [Job(1)], Idle(false), [], 1, 0, []), 2, Submit(2), Small(Running, [Job(1)], Idle(false), [2], 1, 0, []));
  }

  lemma SmallJoins(job: nat, blocked: seq<nat>)
    ensures var p := Small(Running, [Job(job)], Idle(false), blocked, 1, 0, []);
      Allowed(p, BeginClose) && Taken(p, BeginClose)
      == Small(Joining, [Job(job)], Idle(false), blocked, 1, 0, [])
  {
  }

  lemma SmallRefills(first: nat, job: nat)
    ensures var p := Small(Drained(false), [], Idle(false), [job], 1, 1, [first]);
      Allowed(p, Unblock(0)) && Taken(p, Unblock(0)) == Small(Drained(false), [Job(job)], Idle(false), [], 2, 1, [first])
  {
    assert [job][..0] + [job][1..] == [];
    assert [] + [Job(job)] == [Job(job)];
  }

  lemma SmallBreaks(first: nat, job: nat)
    ensures var p := Small(Drained(false), [Job(job)], Idle(false), [], 2, 1, [first]);
      Allowed(p, Resume) && Taken(p, Resume) == Small(Broken(false), [Job(job)], Idle(false), [], 2, 1, [first])
  {
    assert [Job(job)] + Repeat(0, Stop) == [Job(job)];
  }

  /**
   As many places as workers are not enough: the close waits, the only worker takes the job, which wakes the blocked
   submit, and ends it, which wakes the close; the submit puts its job first, and the stop mark does not fit.
   */
  lemma MarksCanFailWithRoom()
    ensures exists p :: Reaches(SMALL, p, 8) && p == Small(Broken(false), [Job(2)], Idle(false), [], 2, 1, [1])
  {
    Opening();
    hide Reaches;
    hide Taken;
    hide Allowed;
    SmallJoins(1, [2]);

    Hop(SMALL, Small(Running, [Job(1)], Idle(false), [2], 1, 0, []), 3, BeginClose, Small(Joining, [Job(1)], Idle(false), [2], 1, 0, []));
    SmallTake(Joining, Job(1), [2], 1, 0, []);
    assert [] + [1] == [1];
    Hop(SMALL, Small(Joining, [Job(1)], Idle(false), [2], 1, 0, []), 4, Take(0), Small(Joining, [], Busy(1, false), [2], 1, 0, [1]));
    SmallFinish(Joining, 1, [2]);
    Hop(SMALL, Small(Joining, [], Busy(1, false), [2], 1, 0, [1]), 5, Finish(0, true), Small(Drained(false), [], Idle(false), [2], 1, 1, [1]));
    SmallRefills(1, 2);
    Hop(SMALL, Small(Drained(false), [], Idle(false), [2], 1, 1, [1]), 6, Unblock(0), Small(Drained(false), [Job(2)], Idle(false), [], 2, 1, [1]));
    SmallBreaks(1, 2);
    Hop(SMALL, Small(Drained(false), [Job(2)], Idle(false), [], 2, 1, [1]), 7, Resume, Small(Broken(false), [Job(2)], Idle(false), [], 2, 1, [1]));
  }

  lemma SmallMarks(first: nat, job: nat)
    ensures var p := Small(Running, [], Idle(false), [job], 1, 1, [first]);
      Allowed(p, BeginClose) && Taken(p, BeginClose) == Small(Stopping(false, false), [Stop], Idle(false), [job], 1, 1, [first])
  {
    assert [Idle(false)][..0] == [];
    assert Repeat(0, Stop) == [];
    assert [] + Repeat(1, Stop) == [Stop];
  }

  lemma SmallUnblocked(first: nat, job: nat)
    ensures var p := Small(Stopping(false, false), [], Exited, [job], 1, 1, [first]);
      Allowed(p, Unblock(0)) && Taken(p, Unblock(0)) == Small(Stopping(false, false), [Job(job)], Exited, [], 2, 1, [first])
  {
    assert [job][..0] + [job][1..] == [];
    assert [] + [Job(job)] == [Job(job)];
  }

  lemma SmallClosed(first: nat, job: nat)
    ensures var p := Small(Stopping(false, false), [Job(job)], Exited, [], 2, 1, [first]);
      Allowed(p, CloseDone) && Taken(p, CloseDone) == Small(Closed(false, false), [Job(job)], Exited, [], 2, 1, [first])
  {
    assert [Exited][..0] == [];
  }

  /**
   The condition on blocked submits is needed for a clean close too: when `close` is called with nothing unfinished, a
   submit that was woken but has not put its job yet finds the stop mark in its place, and puts its job behind the mark
   once that is taken; the pool closes without running it.
   */
  lemma BlockedSubmitCanBeStranded()
    ensures exists p :: Reaches(SMALL, p, 9) && p == Small(Closed(false, false), [Job(2)], Exited, [], 2, 1, [1])
  {
    Opening();
    hide Reaches;
    hide Taken;
    hide Allowed;
    SmallTake(Running, Job(1), [2], 1, 0, []);
    assert [] + [1] == [1];
    Hop(SMALL, Small(Running, [Job(1)], Idle(false), [2], 1, 0, []), 3, Take(0), Small(Running, [], Busy(1, false), [2], 1, 0, [1]));
    SmallFinish(Running, 1, [2]);
    Hop(SMALL, Small(Running, [], Busy(1, false), [2], 1, 0, [1]), 4, Finish(0, true), Small(Running, [], Idle(false), [2], 1, 1, [1]));
    SmallMarks(1, 2);
    Hop(SMALL, Small(Running, [], Idle(false), [2], 1, 1, [1]), 5, BeginClose, Small(Stopping(false, false), [Stop], Idle(false), [2], 1, 1, [1]));
    SmallTake(Stopping(false, false), Stop, [2], 1, 1, [1]);
    Hop(SMALL, Small(Stopping(false, false), [Stop], Idle(false), [2], 1, 1, [1]), 6, Take(0), Small(Stopping(false, false), [], Exited, [2], 1, 1, [1]));
    SmallUnblocked(1, 2);
    Hop(SMALL, Small(Stopping(false, false), [], Exited, [2], 1, 1, [1]), 7, Unblock(0), Small(Stopping(false, false), [Job(2)], Exited, [], 2, 1, [1]));
    SmallClosed(1, 2);
    Hop(SMALL, Small(Stopping(false, false), [Job(2)], Exited, [], 2, 1, [1]), 8, CloseDone, Small(Closed(false, false), [Job(2)], Exited, [], 2, 1, [1]));
  }

  // ---- The pool, changed in place ----

  class BoundedTaskPool {
    var pool: Pool

    constructor (workers: nat, queueSize: nat)
      requires workers >= 1 && queueSize >= 1
      ensures IsStart(pool) && pool.workerCount == workers && pool.queueSize == queueSize
    {
      pool := Pool(Created, workers, queueSize, [], [], [], 0, 0, 0, 0, [], 0);
    }

    /** `try_submit`: never waits; false when the queue is full or the pool is not running. */
    method TrySubmitJob(job: nat) returns (queued: bool)
      modifies this
      ensures pool == Taken(old(pool), TrySubmit(job))
      ensures queued <==> pool.submitted == old(pool).submitted + 1
    {
      if !pool.phase.Running? {
        return false;
      }
      if |pool.queue| >= pool.queueSize {
        return false;
      }
      pool := pool.(queue := pool.queue + [Job(job)], submitted := pool.submitted + 1);
      queued := true;
    }

    /** `_cancel_queued_work`: one queued job after another. */
    method CancelQueuedWork()
      modifies this
      ensures pool == old(pool).(queue := [], cancelled := old(pool).cancelled + Jobs(old(pool).queue))
    {
      hide Jobs;
      NoneActive();
      while pool.queue != []
        invariant pool == old(pool).(queue := pool.queue, cancelled := pool.cancelled)
        invariant pool.cancelled + Jobs(pool.queue) == old(pool).cancelled + Jobs(old(pool).queue)
        decreases |pool.queue|
      {
        FirstJob(pool.queue);
        var counted := if pool.queue[0].Job? then 1 else 0;
        pool := pool.(queue := pool.queue[1..], cancelled := pool.cancelled + counted);
      }
    }

    /** The end of `close`, when its turn comes after the drain or the timeout has passed: a refilled queue is possible. */
    method FinishJoin(timedOut: bool)
      requires pool.phase.Drained? || (timedOut && pool.phase.Joining?)
      modifies this
      ensures pool == Taken(old(pool), if timedOut then JoinTimeout else Resume)
    {
      hide Jobs;
      hide Active;
      if timedOut {
        CancelQueuedWork();
        pool := pool.(workers := CancelAll(pool.workers), phase := Stopping(true, false));
        return;
      }
      PutStopMarks(pool.phase.clean);
    }

    /** `put_nowait` of one stop mark for each worker. */
    method PutStopMarks(clean: bool)
      modifies this
      ensures pool == Marked(old(pool), clean)
    {
      var i := 0;
      assert pool.queue == pool.queue + Repeat(0, Stop);
      while i < pool.workerCount
        invariant i <= pool.workerCount && i <= Room(old(pool))
        invariant pool == old(pool).(queue := old(pool).queue + Repeat(i, Stop))
      {
        if |pool.queue| >= pool.queueSize {
          pool := pool.(phase := Broken(clean));
          return;
        }
        assert old(pool).queue + Repeat(i, Stop) + [Stop] == old(pool).queue + (Repeat(i, Stop) + [Stop]);
        pool := pool.(queue := pool.queue + [Stop]);
        i := i + 1;
      }
      pool := pool.(phase := Stopping(false, clean));
    }
  }

  lemma FirstJob(queue: seq<Item>)
    requires queue != []
    ensures Jobs(queue) == Jobs(queue[1..]) + if queue[0].Job? then 1 else 0
  {
    assert queue == [queue[0]] + queue[1..];
    JobsConcat([queue[0]], queue[1..]);
    assert [queue[0]][..0] == [];
  }
}
