/**
 The sliding-window rate limiter: at most `maxPerMinute` grants in any 60 seconds, and none before a pause deadline,
 over any run of requests and pauses on a clock that does not go back. The deque it prunes answers as the full
 history of grants would, and a sleep that does not end early is needed at most once. Times are seconds.
 */
module RateLimiter {
  const WINDOW_SECONDS := 60.0

  /** The deque and the deadline, with the full history beside them. */
  datatype Limiter = Limiter(
    maxPerMinute: nat,
    sent: seq<real>,
    pausedUntil: real,
    clock: real,              // the newest clock reading
    grants: seq<real>,        // every grant, in order
    deadlines: seq<real>)     // every pause deadline

  function Max(a: real, b: real): (larger: real)
    ensures larger >= a && larger >= b && (larger == a || larger == b)
  {
    if a >= b then a else b
  }

  /** Drops what lies 60 seconds back or more. */
  function Pruned(sent: seq<real>, now: real): seq<real> {
    if sent != [] && sent[0] <= now - WINDOW_SECONDS then Pruned(sent[1..], now) else sent
  }

  /** The wait that `wait_seconds` returns for a pruned deque. */
  function WaitFor(sent: seq<real>, pausedUntil: real, maxPerMinute: nat, now: real): real
    requires maxPerMinute >= 1
  {
    var wait := Max(0.0, pausedUntil - now);
    if |sent| >= maxPerMinute then Max(wait, sent[0] + WINDOW_SECONDS - now) else wait
  }

  function WaitSeconds(x: Limiter, now: real): real
    requires x.maxPerMinute >= 1
  {
    WaitFor(Pruned(x.sent, now), x.pausedUntil, x.maxPerMinute, now)
  }

  datatype Step = Ask(now: real) | Pause(now: real, seconds: real) | Grant(now: real, at: real)

  /** The clock does not go back; a slot is taken when the wait, read at `now`, is zero. */
  predicate Allowed(x: Limiter, s: Step)
    requires x.maxPerMinute >= 1
  {
    match s
    case Ask(now) => now >= x.clock
    case Pause(now, seconds) => now >= x.clock
    case Grant(now, at) => x.clock <= now <= at && WaitSeconds(x, now) <= 0.0
  }

  function Taken(x: Limiter, s: Step): Limiter {
    match s
    case Ask(now) => x.(sent := Pruned(x.sent, now), clock := now)
    case Pause(now, seconds) =>
      x.(pausedUntil := Max(x.pausedUntil, now + seconds), clock := now, deadlines := x.deadlines + [now + seconds])
    case Grant(now, at) => x.(sent := Pruned(x.sent, now) + [at], clock := at, grants := x.grants + [at])
  }

  ghost predicate Ascending(s: seq<real>) {
    forall i, j :: 0 <= i < j < |s| ==> s[i] <= s[j]
  }

  /** The deque is the end of the history, and everything before it is 60 seconds old. */
  ghost predicate IsTail(x: Limiter) {
    && |x.sent| <= |x.grants|
    && x.sent == x.grants[|x.grants| - |x.sent|..]
    && (forall i :: 0 <= i < |x.grants| - |x.sent| ==> x.grants[i] <= x.clock - WINDOW_SECONDS)
  }

  ghost predicate Spaced(x: Limiter) {
    forall i :: 0 <= i < |x.grants| - x.maxPerMinute ==> x.grants[i + x.maxPerMinute] - x.grants[i] >= WINDOW_SECONDS
  }

  ghost predicate Inv(x: Limiter) {
    && x.maxPerMinute >= 1 && |x.sent| <= x.maxPerMinute
    && Ascending(x.grants) && (forall i :: 0 <= i < |x.grants| ==> x.grants[i] <= x.clock)
    && IsTail(x) && Spaced(x)
    && (forall i :: 0 <= i < |x.deadlines| ==> x.deadlines[i] <= x.pausedUntil)
  }

  lemma {:induction false} PrunedIsTail(sent: seq<real>, now: real) returns (n: nat)
    requires Ascending(sent)
    ensures n <= |sent| && Pruned(sent, now) == sent[n..]
    ensures forall i :: 0 <= i < n ==> sent[i] <= now - WINDOW_SECONDS
    ensures forall i :: n <= i < |sent| ==> sent[i] > now - WINDOW_SECONDS
  {
    if sent != [] && sent[0] <= now - WINDOW_SECONDS {
      var rest := PrunedIsTail(sent[1..], now);
      n := rest + 1;
    } else {
      n := 0;
    }
  }

  lemma TailAscends(x: Limiter)
    requires Inv(x)
    ensures Ascending(x.sent)
  {
    var k := |x.grants| - |x.sent|;
    assert forall i :: 0 <= i < |x.sent| ==> x.sent[i] == x.grants[k + i];
  }

  lemma TailOfTail(grants: seq<real>, k: nat, m: nat)
    requires k <= |grants| && m <= |grants| - k
    ensures grants[k..][m..] == grants[k + m..]
  {
  }

  /** Where the pruned deque starts in the history. */
  lemma PrunedFrom(x: Limiter, now: real) returns (n: nat)
    requires Inv(x) && now >= x.clock
    ensures |x.grants| - |x.sent| <= n <= |x.grants| && Pruned(x.sent, now) == x.grants[n..]
    ensures forall i :: 0 <= i < n ==> x.grants[i] <= now - WINDOW_SECONDS
    ensures forall i :: n <= i < |x.grants| ==> x.grants[i] > now - WINDOW_SECONDS
  {
    hide Spaced;
    hide Pruned;
    TailAscends(x);
    var k := |x.grants| - |x.sent|;
    var m := PrunedIsTail(x.sent, now);
    n := k + m;
    TailOfTail(x.grants, k, m);
    forall i | 0 <= i < n ensures x.grants[i] <= now - WINDOW_SECONDS {
      if i >= k { assert x.grants[i] == x.sent[i - k]; }
    }
    forall i | n <= i < |x.grants| ensures x.grants[i] > now - WINDOW_SECONDS {
      assert x.grants[i] == x.sent[i - k];
    }
  }

  /** Pruning keeps the deque the end of the history. */
  lemma PruneKeeps(x: Limiter, now: real) returns (n: nat)
    requires Inv(x) && now >= x.clock
    ensures Inv(Taken(x, Ask(now)))
    ensures n <= |x.grants| && Pruned(x.sent, now) == x.grants[n..] && |x.grants| - n <= x.maxPerMinute
    ensures forall i :: 0 <= i < n ==> x.grants[i] <= now - WINDOW_SECONDS
    ensures forall i :: n <= i < |x.grants| ==> x.grants[i] > now - WINDOW_SECONDS
  {
    hide Pruned;
    n := PrunedFrom(x, now);
    hide Ascending;
    var x' := Taken(x, Ask(now));
    assert Spaced(x') by { SameGrantsSpaced(x, x'); }
  }

  lemma SameGrantsSpaced(x: Limiter, x': Limiter)
    requires Spaced(x) && x'.grants == x.grants && x'.maxPerMinute == x.maxPerMinute
    ensures Spaced(x')
  {
  }

  lemma GrantSpaced(x: Limiter, x': Limiter, at: real)
    requires Spaced(x) && x.maxPerMinute >= 1 && x'.grants == x.grants + [at] && x'.maxPerMinute == x.maxPerMinute
    requires |x.grants| >= x.maxPerMinute ==> at - x.grants[|x.grants| - x.maxPerMinute] >= WINDOW_SECONDS
    ensures Spaced(x')
  {
  }

  lemma GrantTail(x: Limiter, at: real, n: nat)
    requires n <= |x.grants|
    ensures (x.grants + [at])[n..] == x.grants[n..] + [at]
  {
  }

  lemma GrantKeeps(x: Limiter, now: real, at: real)
    requires Inv(x) && Allowed(x, Grant(now, at))
    ensures Inv(Taken(x, Grant(now, at)))
  {
    hide Pruned;
    var x' := Taken(x, Grant(now, at));
    var n := PruneKeeps(x, now);
    assert |x.grants| - n < x.maxPerMinute by { FullDequeWaits(x, now, n); }
    GrantSpaced(x, x', at);
    GrantTail(x, at, n);
    hide Spaced;
  }

  /** With as many grants inside the window as allowed there is a wait. */
  lemma FullDequeWaits(x: Limiter, now: real, n: nat)
    requires x.maxPerMinute >= 1 && n <= |x.grants| && Pruned(x.sent, now) == x.grants[n..]
    requires forall i :: n <= i < |x.grants| ==> x.grants[i] > now - WINDOW_SECONDS
    ensures |x.grants| - n >= x.maxPerMinute ==> WaitSeconds(x, now) > 0.0
  {
    hide Pruned;
    if |x.grants| - n >= x.maxPerMinute {
      assert x.grants[n..][0] == x.grants[n];
    }
  }

  lemma StepKeeps(x: Limiter, s: Step)
    requires Inv(x) && Allowed(x, s)
    ensures Inv(Taken(x, s))
  {
    match s
    case Ask(now) => var _ := PruneKeeps(x, now);
    case Pause(now, seconds) =>
    case Grant(now, at) => GrantKeeps(x, now, at);
  }

  ghost predicate Follows(x: Limiter, x': Limiter) {
    x.maxPerMinute >= 1 && exists s :: Allowed(x, s) && x' == Taken(x, s)
  }

  function Start(maxPerMinute: nat, clock: real): Limiter {
    Limiter(maxPerMinute, [], 0.0, clock, [], [])
  }

  ghost predicate IsRun(run: seq<Limiter>) {
    && run != [] && run[0].maxPerMinute >= 1 && run[0] == Start(run[0].maxPerMinute, run[0].clock)
    && forall i :: 0 <= i < |run| - 1 ==> Follows(run[i], run[i + 1])
  }

  lemma {:induction false} InvariantHolds(run: seq<Limiter>, i: nat)
    requires IsRun(run) && i < |run|
    ensures Inv(run[i])
    decreases i
  {
    if i > 0 {
      hide Inv;
      InvariantHolds(run, i - 1);
      assert Follows(run[i - 1], run[i - 1 + 1]);
      var s :| Allowed(run[i - 1], s) && run[i] == Taken(run[i - 1], s);
      StepKeeps(run[i - 1], s);
    }
  }

  /** Any two grants `maxPerMinute` apart, or further, lie at least 60 seconds apart; the deque never holds more. */
  lemma GrantsAreSpaced(run: seq<Limiter>, n: nat, i: nat, j: nat)
    requires IsRun(run) && n < |run| && i + run[n].maxPerMinute <= j < |run[n].grants|
    ensures run[n].grants[j] - run[n].grants[i] >= WINDOW_SECONDS
    ensures |run[n].sent| <= run[n].maxPerMinute
  {
    InvariantHolds(run, n);
    var x := run[n];
    assert x.grants[i + x.maxPerMinute] - x.grants[i] >= WINDOW_SECONDS;
    assert x.grants[i + x.maxPerMinute] <= x.grants[j];
  }

  /** A grant never precedes a pause deadline set before it. */
  lemma GrantsRespectPauses(run: seq<Limiter>, n: nat, now: real, at: real, d: nat)
    requires IsRun(run) && n < |run| && run[n].maxPerMinute >= 1 && Allowed(run[n], Grant(now, at)) && d < |run[n].deadlines|
    ensures at >= run[n].deadlines[d]
  {
    InvariantHolds(run, n);
  }

  /** The grants of the last 60 seconds, from the full history. */
  function Recent(grants: seq<real>, now: real): seq<real> {
    if grants == [] then []
    else if grants[|grants| - 1] > now - WINDOW_SECONDS then Recent(grants[..|grants| - 1], now) + [grants[|grants| - 1]]
    else Recent(grants[..|grants| - 1], now)
  }

  lemma {:induction false} RecentIsTail(grants: seq<real>, now: real, n: nat)
    requires n <= |grants|
    requires forall i :: 0 <= i < n ==> grants[i] <= now - WINDOW_SECONDS
    requires forall i :: n <= i < |grants| ==> grants[i] > now - WINDOW_SECONDS
    ensures Recent(grants, now) == grants[n..]
  {
    if grants != [] {
      var front := grants[..|grants| - 1];
      if n < |grants| {
        RecentIsTail(front, now, n);
        assert grants[n..] == front[n..] + [grants[|grants| - 1]];
      } else {
        RecentIsTail(front, now, n - 1);
        assert front[n - 1..] == [];
      }
    }
  }

  /** The pruned deque answers as the full history would. */
  lemma AnswersAsFullHistory(run: seq<Limiter>, n: nat, now: real)
    requires IsRun(run) && n < |run| && now >= run[n].clock && run[n].maxPerMinute >= 1
    ensures WaitSeconds(run[n], now) == WaitFor(Recent(run[n].grants, now), run[n].pausedUntil, run[n].maxPerMinute, now)
  {
    InvariantHolds(run, n);
    var k := PruneKeeps(run[n], now);
    RecentIsTail(run[n].grants, now, k);
  }

  /** After sleeping at least the wait, with no pause in between, the slot is free. */
  lemma OneSleepIsEnough(run: seq<Limiter>, n: nat, now: real, later: real)
    requires IsRun(run) && n < |run| && now >= run[n].clock && run[n].maxPerMinute >= 1
    requires WaitSeconds(run[n], now) > 0.0 && later >= now + WaitSeconds(run[n], now)
    ensures WaitSeconds(Taken(run[n], Ask(now)), later) <= 0.0
  {
    InvariantHolds(run, n);
    var x := run[n];
    var k := PruneKeeps(x, now);
    var x' := Taken(x, Ask(now));
    TailAscends(x');
    var m := PrunedIsTail(x'.sent, later);
    if |x'.sent| >= x.maxPerMinute {
      assert x'.sent[0] + WINDOW_SECONDS <= later;
    }
  }

  // ---- One acquire ----

  datatype Outcome = Granted | TooFar | StillWaiting

  /**
   `acquire` from its `k`-th wait on, against a script of clock readings: one per wait, and one more for the grant. It
   still waits when it has slept `limit` times.
   */
  function Acquired(x: Limiter, maxWaitSeconds: real, readings: nat -> real, k: nat, limit: nat): (Limiter, Outcome, nat)
    requires x.maxPerMinute >= 1
    decreases limit - k
  {
    if k >= limit then (x, StillWaiting, k)
    else
      var wait := WaitSeconds(x, readings(k));
      if wait <= 0.0 then (Taken(x, Grant(readings(k), readings(k + 1))), Granted, k)
      else if wait > maxWaitSeconds then (Taken(x, Ask(readings(k))), TooFar, k)
      else Acquired(Taken(x, Ask(readings(k))), maxWaitSeconds, readings, k + 1, limit)
  }

  /** When no sleep ends early, and nothing pauses the limiter meanwhile, `acquire` sleeps at most once. */
  lemma SleepsAtMostOnce(run: seq<Limiter>, n: nat, maxWaitSeconds: real, readings: nat -> real, limit: nat)
    requires IsRun(run) && n < |run| && run[n].maxPerMinute >= 1 && limit >= 2
    requires run[n].clock <= readings(0) <= readings(1)
    requires WaitSeconds(run[n], readings(0)) > 0.0 ==> readings(1) >= readings(0) + WaitSeconds(run[n], readings(0))
    ensures var (x, outcome, sleeps) := Acquired(run[n], maxWaitSeconds, readings, 0, limit);
      sleeps <= 1 && outcome != StillWaiting && (sleeps == 1 ==> outcome == Granted)
  {
    hide IsRun;
    if WaitSeconds(run[n], readings(0)) > 0.0 {
      OneSleepIsEnough(run, n, readings(0), readings(1));
    }
  }

  // ---- The limiter, changed in place ----

  class Limits {
    const maxPerMinute: nat
    var sent: seq<real>
    var pausedUntil: real
    ghost var clock: real
    ghost var grants: seq<real>
    ghost var deadlines: seq<real>

    constructor (maxPerMinute: nat, ghost clock: real)
      ensures Value() == Start(maxPerMinute, clock)
    {
      this.maxPerMinute := maxPerMinute;
      sent, pausedUntil := [], 0.0;
      this.clock, grants, deadlines := clock, [], [];
    }

    ghost function Value(): Limiter
      reads this
    {
      Limiter(maxPerMinute, sent, pausedUntil, clock, grants, deadlines)
    }

    method SetPause(now: real, seconds: real)
      modifies this
      ensures Value() == Taken(old(Value()), Pause(now, seconds))
    {
      pausedUntil := Max(pausedUntil, now + seconds);
      clock := now;
      deadlines := deadlines + [now + seconds];
    }

    /** `wait_seconds`. */
    method NextWait(now: real) returns (wait: real)
      requires maxPerMinute >= 1
      modifies this
      ensures Value() == Taken(old(Value()), Ask(now))
      ensures wait == WaitSeconds(old(Value()), now)
    {
      sent := PruneLoop(sent, now);
      clock := now;
      wait := Max(0.0, pausedUntil - now);
      if |sent| >= maxPerMinute {
        wait := Max(wait, sent[0] + WINDOW_SECONDS - now);
      }
    }

    method Acquire(maxWaitSeconds: real, readings: nat -> real, limit: nat) returns (outcome: Outcome, sleeps: nat)
      requires maxPerMinute >= 1
      modifies this
      ensures (Value(), outcome, sleeps) == Acquired(old(Value()), maxWaitSeconds, readings, 0, limit)
    {
      hide Pruned;
      sleeps := 0;
      while sleeps < limit
        invariant sleeps <= limit
        invariant Acquired(old(Value()), maxWaitSeconds, readings, 0, limit)
          == Acquired(Value(), maxWaitSeconds, readings, sleeps, limit)
        decreases limit - sleeps
      {
        var wait := NextWait(readings(sleeps));
        if wait <= 0.0 {
          clock := readings(sleeps + 1);
          sent := sent + [readings(sleeps + 1)];
          grants := grants + [readings(sleeps + 1)];
          return Granted, sleeps;
        }
        if wait > maxWaitSeconds {
          return TooFar, sleeps;
        }
        sleeps := sleeps + 1;
      }
      outcome := StillWaiting;
    }
  }

  method PruneLoop(start: seq<real>, now: real) returns (sent: seq<real>)
    ensures sent == Pruned(start, now)
  {
    sent := start;
    while sent != [] && sent[0] <= now - WINDOW_SECONDS
      invariant Pruned(sent, now) == Pruned(start, now)
      decreases |sent|
    {
      sent := sent[1..];
    }
  }
}
