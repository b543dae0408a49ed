/** Bounds of a destroy run under a clock that really advances while the client sleeps. */
module DestroyBounds {
  import opened Backoff
  import opened Transport
  import opened Destroy

  /** The clock never goes back, and advances at least by every delay slept to its end. A
      sleep that is cut short may take any time. */
  ghost predicate TrueClock<S, B, P>(env: Env<S, B, P>) {
    && (forall n: nat :: env.latency(n) >= 0)
    && (forall n: nat, d: int :: env.slumber(n, d) >= 0 && (env.nap(n).None? ==> env.slumber(n, d) >= d))
  }

  lemma {:induction false} AttemptsTakeTime<S, B, P>(env: Env<S, B, P>, w: World<S, B>, m: Wire<B>, wantsOutput: bool, attempt: nat)
    requires TrueClock(env)
    ensures Attempts(env, w, m, wantsOutput, attempt).1.now >= w.now
    decreases env.retries - attempt
  {
    hide RetryDelay;
    var after := Send(env, w, m);
    assert env.latency(|w.wire|) >= 0;
    var verdict := Judge(Fate(env, w, m), attempt, env.retries, Routes.Replayable(m.verb, m.path), wantsOutput, env.outside);
    if verdict.Again? {
      var rested := Sleep(env, after, verdict.delay);
      assert env.slumber(|after.slept|, verdict.delay) >= 0;
      if env.nap(|after.slept|).None? {
        AttemptsTakeTime(env, rested, m, wantsOutput, attempt + 1);
      }
    }
  }

  lemma CallTakesTime<S, B, P>(env: Env<S, B, P>, w: World<S, B>, req: Request<B>)
    requires TrueClock(env)
    ensures Call(env, w, req).1.now >= w.now
  {
    if KeyOf(env, w, req).Some? && req.encodes && req.builds {
      AttemptsTakeTime(env, Keyed(w, req), Message(req, KeyOf(env, w, req).value), req.wantsOutput, 0);
    }
  }

  // ------------------------------------------------------------------- the waits

  function Sum(xs: seq<int>): int {
    if xs == [] then 0 else Sum(xs[..|xs| - 1]) + xs[|xs| - 1]
  }

  lemma SumSnoc(xs: seq<int>, x: int)
    ensures Sum(xs + [x]) == Sum(xs) + x
  {
    assert (xs + [x])[..|xs|] == xs;
  }

  /** The first `n` entries of the table add up to 2^n - 1 seconds, all six to 61. */
  function TableSum(n: nat): int
    requires n <= CODED_LIMIT
  {
    if n == 0 then 0 else TableSum(n - 1) + DELAYS[n - 1]
  }

  lemma TableSums()
    ensures TableSum(0) == 0 && TableSum(1) == SECOND && TableSum(2) == 3 * SECOND
    ensures TableSum(5) == 31 * SECOND && TableSum(6) == DEADLINE
    ensures forall i :: 0 <= i < CODED_LIMIT ==> DELAYS[i] >= SECOND
  {
    assert TableSum(2) == 3 * SECOND;
    assert TableSum(4) == 15 * SECOND;
  }

  /** Waits are never shorter than the table says. */
  ghost predicate Waited(waits: seq<int>, coded: nat, transport: nat) {
    && coded <= CODED_LIMIT && transport <= TRANSPORT_LIMIT
    && |waits| == coded + transport
    && Sum(waits) >= TableSum(coded) + TableSum(transport)
    && (transport == 0 ==> forall i :: 0 <= i < |waits| ==> waits[i] >= DELAYS[i])
  }

  lemma WaitMore(waits: seq<int>, coded: nat, transport: nat, f: Failure, outside: int)
    requires Waited(waits, coded, transport)
    requires if f.ApiFailed? then coded < CODED_LIMIT else transport < TRANSPORT_LIMIT
    ensures var delay := DelayFor(f, if f.ApiFailed? then coded else transport, outside);
      && delay >= SECOND && Sum(waits + [delay]) == Sum(waits) + delay
      && Waited(waits + [delay], if f.ApiFailed? then coded + 1 else coded, if f.ApiFailed? then transport else transport + 1)
  {
    var index := if f.ApiFailed? then coded else transport;
    var delay := DelayFor(f, index, outside);
    assert delay >= DELAYS[index];
    TableSums();
    SumSnoc(waits, delay);
    assert TableSum(index + 1) == TableSum(index) + DELAYS[index];
  }

  // -------------------------------------------------------------------- the bounds

  /** What holds of every run under a true clock. */
  ghost predicate InTime<S, B>(run: Run<S, B>) {
    && Waited(run.waits, run.coded, run.transport)
    && Sum(run.waits) <= DEADLINE
    && run.attempts <= CODED_LIMIT + run.transport
  }

  /** What holds at the head of the loop. */
  ghost predicate Timely<S, B>(w: World<S, B>, deadline: int, waits: seq<int>, coded: nat, transport: nat) {
    && Waited(waits, coded, transport)
    && w.now >= deadline - DEADLINE + Sum(waits)
    && Sum(waits) <= DEADLINE
  }

  lemma TimelyRetry<S, B, P>(env: Env<S, B, P>, after: World<S, B>, deadline: int, attempts: nat,
                             coded: nat, transport: nat, f: Failure, waits: seq<int>)
    requires TrueClock(env) && coded < CODED_LIMIT && transport <= TRANSPORT_LIMIT && (f.ApiFailed? || transport < TRANSPORT_LIMIT)
    requires Timely(after, deadline, waits, coded, transport) && attempts == |waits| + 1
    ensures match Retry(env, after, deadline, attempts, coded, transport, f, waits)
      case Halt(run) => InTime(run)
      case Onward(w', coded', transport', _, waits') => |waits'| == attempts && Timely(w', deadline, waits', coded', transport')
  {
    hide DelayFor, Waited, Sum;
    Affordable(waits, coded, transport);
    var delay := DelayFor(f, if f.ApiFailed? then coded else transport, env.outside);
    WaitMore(waits, coded, transport, f, env.outside);
    assert env.nap(|after.slept|).None? ==> env.slumber(|after.slept|, delay) >= delay;
  }

  lemma TimelyRound<S, B, P>(env: Env<S, B, P>, w: World<S, B>, req: Request<B>, deadline: int,
                             attempts: nat, coded: nat, transport: nat, last: Failure, waits: seq<int>)
    requires TrueClock(env) && coded <= CODED_LIMIT && transport <= TRANSPORT_LIMIT
    requires Timely(w, deadline, waits, coded, transport) && attempts == |waits|
    ensures match RoundOf(env, w, req, deadline, attempts, coded, transport, last, waits)
      case Halt(run) => InTime(run)
      case Onward(w', coded', transport', f, waits') => |waits'| == attempts + 1 && Timely(w', deadline, waits', coded', transport')
  {
    hide Call, Retry, WorthRetrying, FromContext, NotFound, Waited;
    Affordable(waits, coded, transport);
    CallTakesTime(env, w, req);
    var (r, after) := Call(env, w, req);
    if (attempts == 0 || w.now < deadline) && r.Err? && (r.failure.ApiFailed? || transport < TRANSPORT_LIMIT) {
      TimelyRetry(env, after, deadline, attempts + 1, coded, transport, r.failure, waits);
    }
  }

  lemma {:induction false} InTimeFrom<S, B, P>(env: Env<S, B, P>, w: World<S, B>, req: Request<B>, deadline: int,
                                               attempts: nat, coded: nat, transport: nat, last: Failure, waits: seq<int>)
    requires TrueClock(env) && coded <= CODED_LIMIT && transport <= TRANSPORT_LIMIT
    requires Timely(w, deadline, waits, coded, transport) && attempts == |waits|
    ensures InTime(RunFrom(env, w, req, deadline, attempts, coded, transport, last, waits))
    decreases CODED_LIMIT + TRANSPORT_LIMIT - coded - transport
  {
    hide RoundOf, InTime, Timely;
    TimelyRound(env, w, req, deadline, attempts, coded, transport, last, waits);
    var round := RoundOf(env, w, req, deadline, attempts, coded, transport, last, waits);
    if round.Onward? {
      InTimeFrom(env, round.world, req, deadline, attempts + 1, round.coded, round.transport, round.failure, round.waits);
    }
  }

  /** What the waits so far say about the counters. */
  lemma Affordable(waits: seq<int>, coded: nat, transport: nat)
    requires Waited(waits, coded, transport)
    ensures coded <= CODED_LIMIT && transport <= TRANSPORT_LIMIT && |waits| == coded + transport
    ensures Sum(waits) < DEADLINE ==> coded < CODED_LIMIT
  {
    TableSums();
    assert TableSum(transport) >= 0 by { assert transport == 0 || transport == 1 || transport == 2; }
  }

  /** Under a true clock a run makes at most 8 attempts, at most 6 without transport
      sleeps, and its own sleeps total at most 61 seconds. */
  lemma Bounds<S, B, P>(env: Env<S, B, P>, w: World<S, B>, req: Request<B>)
    requires TrueClock(env)
    ensures var run := RunOf(env, w, req);
      && InTime(run)
      && run.attempts <= 8
      && Sum(run.waits) <= DEADLINE
      && (run.transport == 0 ==> run.attempts <= 6)
  {
    hide RunFrom;
    TableSums();
    InTimeFrom(env, w, req, w.now + DEADLINE, 0, 0, 0, NoKey, []);
  }

  /** The last table entry is slept only by a run that spends the whole budget on the
      table itself, and no attempt follows it. */
  lemma LastEntryEndsTheRun<S, B, P>(env: Env<S, B, P>, w: World<S, B>, req: Request<B>)
    requires TrueClock(env)
    ensures var run := RunOf(env, w, req);
      run.coded == CODED_LIMIT ==>
        && run.waits == DELAYS && Sum(run.waits) == DEADLINE
        && run.attempts == CODED_LIMIT
        && (run.ending.SleepFailed? || LateExit(run, w.now + DEADLINE))
  {
    hide RunFrom, RunOf;
    Bounds(env, w, req);
    Budgets(env, w, req);
    var run := RunOf(env, w, req);
    if run.coded == CODED_LIMIT {
      WholeTable(run.waits, run.transport);
    }
  }

  lemma WholeTable(waits: seq<int>, transport: nat)
    requires Waited(waits, CODED_LIMIT, transport) && Sum(waits) <= DEADLINE
    ensures transport == 0 && waits == DELAYS && Sum(waits) == DEADLINE
  {
    TableSums();
    assert transport == 0 by {
      assert transport == 0 || transport == 1 || transport == 2;
    }
    var a, b, c, d, e, f := waits[0], waits[1], waits[2], waits[3], waits[4], waits[5];
    assert waits == [a] + [b] + [c] + [d] + [e] + [f];
    SumSnoc([a] + [b] + [c] + [d] + [e], f);
    SumSnoc([a] + [b] + [c] + [d], e);
    SumSnoc([a] + [b] + [c], d);
    SumSnoc([a] + [b], c);
    SumSnoc([a], b);
    SumSnoc([], a);
    assert [] + [a] == [a];
  }

  // --------------------------------------------------------------- when attempts start

  /** The times at which the attempts of a run start, from the head of the loop on. */
  function Starts<S, B, P>(env: Env<S, B, P>, w: World<S, B>, req: Request<B>, deadline: int,
                           attempts: nat, coded: nat, transport: nat, last: Failure, waits: seq<int>): seq<int>
    requires coded <= CODED_LIMIT && transport <= TRANSPORT_LIMIT
    decreases CODED_LIMIT + TRANSPORT_LIMIT - coded - transport
  {
    if attempts > 0 && w.now >= deadline then []
    else match RoundOf(env, w, req, deadline, attempts, coded, transport, last, waits)
      case Halt(_) => [w.now]
      case Onward(w', coded', transport', f, waits') => [w.now] + Starts(env, w', req, deadline, attempts + 1, coded', transport', f, waits')
  }

  /** Each start but the first is before the deadline, and at least a second after the last. */
  ghost predicate Spaced(starts: seq<int>, deadline: int) {
    && (forall i :: 0 < i < |starts| ==> starts[i] < deadline)
    && (forall i :: 0 < i < |starts| ==> starts[i] >= starts[i - 1] + SECOND)
  }

  lemma RetryRests<S, B, P>(env: Env<S, B, P>, after: World<S, B>, deadline: int, attempts: nat,
                            coded: nat, transport: nat, f: Failure, waits: seq<int>)
    requires TrueClock(env) && coded <= CODED_LIMIT && transport <= TRANSPORT_LIMIT
    requires if f.ApiFailed? then coded < CODED_LIMIT else transport < TRANSPORT_LIMIT
    ensures match Retry(env, after, deadline, attempts, coded, transport, f, waits)
      case Halt(run) => run.attempts == attempts
      case Onward(w', _, _, _, _) => w'.now >= after.now + SECOND
  {
    var delay := DelayFor(f, if f.ApiFailed? then coded else transport, env.outside);
    TableSums();
    assert env.nap(|after.slept|).None? ==> env.slumber(|after.slept|, delay) >= delay >= SECOND;
  }

  lemma RoundRests<S, B, P>(env: Env<S, B, P>, w: World<S, B>, req: Request<B>, deadline: int,
                            attempts: nat, coded: nat, transport: nat, last: Failure, waits: seq<int>)
    requires TrueClock(env) && coded <= CODED_LIMIT && transport <= TRANSPORT_LIMIT
    ensures match RoundOf(env, w, req, deadline, attempts, coded, transport, last, waits)
      case Halt(run) => run.attempts == if attempts > 0 && w.now >= deadline then attempts else attempts + 1
      case Onward(w', _, _, _, _) => w'.now >= w.now + SECOND && !(attempts > 0 && w.now >= deadline)
  {
    hide Call, Retry, WorthRetrying, FromContext, NotFound;
    CallTakesTime(env, w, req);
    var (r, after) := Call(env, w, req);
    if r.Err? && (if r.failure.ApiFailed? then coded < CODED_LIMIT else transport < TRANSPORT_LIMIT) {
      RetryRests(env, after, deadline, attempts + 1, coded, transport, r.failure, waits);
    }
  }

  lemma {:induction false} StartsFrom<S, B, P>(env: Env<S, B, P>, w: World<S, B>, req: Request<B>, deadline: int,
                                               attempts: nat, coded: nat, transport: nat, last: Failure, waits: seq<int>)
    requires TrueClock(env) && coded <= CODED_LIMIT && transport <= TRANSPORT_LIMIT
    ensures var starts := Starts(env, w, req, deadline, attempts, coded, transport, last, waits);
      && |starts| == RunFrom(env, w, req, deadline, attempts, coded, transport, last, waits).attempts - attempts
      && Spaced(starts, deadline)
      && (starts != [] ==> starts[0] == w.now && (attempts > 0 ==> w.now < deadline))
    decreases CODED_LIMIT + TRANSPORT_LIMIT - coded - transport
  {
    hide RoundOf;
    RoundRests(env, w, req, deadline, attempts, coded, transport, last, waits);
    var round := RoundOf(env, w, req, deadline, attempts, coded, transport, last, waits);
    if round.Onward? {
      StartsFrom(env, round.world, req, deadline, attempts + 1, round.coded, round.transport, round.failure, round.waits);
    }
  }

  /** Under a true clock no retry starts at or after the deadline, and any two attempts
      start at least a second apart. */
  lemma RetriesStartInTime<S, B, P>(env: Env<S, B, P>, w: World<S, B>, req: Request<B>)
    requires TrueClock(env)
    ensures var starts := Starts(env, w, req, w.now + DEADLINE, 0, 0, 0, NoKey, []);
      |starts| == RunOf(env, w, req).attempts && Spaced(starts, w.now + DEADLINE)
  {
    hide RunFrom, Starts;
    StartsFrom(env, w, req, w.now + DEADLINE, 0, 0, 0, NoKey, []);
  }
}
