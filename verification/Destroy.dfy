/** Releasing a sandbox: a second retry machine on top of the request loop, with two
    budgets, a table of delays and a deadline. */
module Destroy {
  import opened Backoff
  import opened Transport
  import opened Delivery

  const DELAYS: seq<int> := [SECOND, 2 * SECOND, 4 * SECOND, 8 * SECOND, 16 * SECOND, 30 * SECOND]
  const CODED_LIMIT := 6     // the length of the table
  const DEADLINE := 61 * SECOND
  const TRANSPORT_LIMIT := 2

  /** How a run ends. `Gone` is Go's nil. */
  datatype Ending =
    | Gone
    | Rejected(failure: Failure)
    | Aborted(failure: Failure)
    | Exhausted(failure: Failure, attempts: nat)
    | SleepFailed(cause: Cause)

  /** A finished run: its ending, the world it leaves, and the delays it asked for itself,
      after `coded` coded failures and `transport` transport failures. */
  datatype Run<S, B> = Run(ending: Ending, world: World<S, B>, attempts: nat, coded: nat, transport: nat, waits: seq<int>)

  predicate DestroyCode(code: string) {
    code == "destroy_incomplete" || code == "destroy_outcome_unknown"
  }

  predicate NotFound(f: Failure) {
    f.ApiFailed? && f.status == 404
  }

  /** Worth another attempt: anything but an answer, and two codes with status 504. */
  predicate WorthRetrying(f: Failure) {
    f.ApiFailed? ==> f.status == 504 && DestroyCode(f.code)
  }

  predicate FromContext(f: Failure) {
    (f.TransportFailed? || f.ReadFailed? || f.SleepCut?) && f.cause != Plain
  }

  function DelayFor(f: Failure, index: nat, outside: int): int
    requires index < CODED_LIMIT
  {
    if f.ApiFailed? && f.retryAfterSeconds > 0.0 then Max(DELAYS[index], ToDuration(f.retryAfterSeconds, outside))
    else DELAYS[index]
  }

  function DeleteRequest<B>(path: string, nothing: B, builds: bool): Request<B> {
    Request("DELETE", path, nothing, "", true, builds, false)
  }

  /** One round of the loop: the run ends, or goes on from a new world with one unit of a
      budget spent and one more wait. */
  datatype Round<S, B> =
    | Halt(run: Run<S, B>)
    | Onward(world: World<S, B>, coded: nat, transport: nat, failure: Failure, waits: seq<int>)

  /** A failure worth another attempt, with budget left for one: the run sleeps if the
      deadline allows it. */
  function Retry<S, B, P>(env: Env<S, B, P>, after: World<S, B>, deadline: int, attempts: nat,
                          coded: nat, transport: nat, f: Failure, waits: seq<int>): (round: Round<S, B>)
    requires coded <= CODED_LIMIT && transport <= TRANSPORT_LIMIT
    requires if f.ApiFailed? then coded < CODED_LIMIT else transport < TRANSPORT_LIMIT
    ensures round.Onward? ==> coded <= round.coded <= CODED_LIMIT && transport <= round.transport <= TRANSPORT_LIMIT
    ensures round.Onward? ==> round.coded + round.transport == coded + transport + 1
  {
    var delay := DelayFor(f, if f.ApiFailed? then coded else transport, env.outside);
    if after.now + delay > deadline then Halt(Run(Exhausted(f, attempts), after, attempts, coded, transport, waits))
    else
      var rested := Sleep(env, after, delay);
      var coded' := if f.ApiFailed? then coded + 1 else coded;
      var transport' := if f.ApiFailed? then transport else transport + 1;
      match env.nap(|after.slept|)
      case Some(c) => Halt(Run(SleepFailed(c), rested, attempts, coded', transport', waits + [delay]))
      case None => Onward(rested, coded', transport', f, waits + [delay])
  }

  function RoundOf<S, B, P>(env: Env<S, B, P>, w: World<S, B>, req: Request<B>, deadline: int,
                            attempts: nat, coded: nat, transport: nat, last: Failure, waits: seq<int>): (round: Round<S, B>)
    requires coded <= CODED_LIMIT && transport <= TRANSPORT_LIMIT
    ensures round.Onward? ==> coded <= round.coded <= CODED_LIMIT && transport <= round.transport <= TRANSPORT_LIMIT
    ensures round.Onward? ==> round.coded + round.transport == coded + transport + 1
  {
    if attempts > 0 && w.now >= deadline then
      Halt(Run(Exhausted(last, attempts), w, attempts, coded, transport, waits))
    else
      var (r, after) := Call(env, w, req);
      var n := attempts + 1;
      match r
      case Ok(_) => Halt(Run(Gone, after, n, coded, transport, waits))
      case Err(f) =>
        if NotFound(f) then Halt(Run(Gone, after, n, coded, transport, waits))
        else if !WorthRetrying(f) then Halt(Run(Rejected(f), after, n, coded, transport, waits))
        else if FromContext(f) || env.ended(|after.wire|) then Halt(Run(Aborted(f), after, n, coded, transport, waits))
        else if (if f.ApiFailed? then coded == CODED_LIMIT else transport == TRANSPORT_LIMIT) then
          Halt(Run(Exhausted(f, n), after, n, coded, transport, waits))
        else
          Retry(env, after, deadline, n, coded, transport, f, waits)
  }

  /** The run from the head of the loop on. */
  function RunFrom<S, B, P>(env: Env<S, B, P>, w: World<S, B>, req: Request<B>, deadline: int,
                            attempts: nat, coded: nat, transport: nat, last: Failure, waits: seq<int>): Run<S, B>
    requires coded <= CODED_LIMIT && transport <= TRANSPORT_LIMIT
    decreases CODED_LIMIT + TRANSPORT_LIMIT - coded - transport
  {
    match RoundOf(env, w, req, deadline, attempts, coded, transport, last, waits)
    case Halt(run) => run
    case Onward(w', coded', transport', f, waits') => RunFrom(env, w', req, deadline, attempts + 1, coded', transport', f, waits')
  }

  function RunOf<S, B, P>(env: Env<S, B, P>, w: World<S, B>, req: Request<B>): Run<S, B> {
    RunFrom(env, w, req, w.now + DEADLINE, 0, 0, 0, NoKey, [])
  }

  lemma RunBegins<S, B, P>(env: Env<S, B, P>, w: World<S, B>, req: Request<B>)
    ensures RunOf(env, w, req) == RunFrom(env, w, req, w.now + DEADLINE, 0, 0, 0, NoKey, [])
  {
    hide RunFrom;
  }

  lemma RunGoesOn<S, B, P>(env: Env<S, B, P>, w: World<S, B>, req: Request<B>, deadline: int,
                           attempts: nat, coded: nat, transport: nat, last: Failure, waits: seq<int>)
    requires coded <= CODED_LIMIT && transport <= TRANSPORT_LIMIT
    ensures RunFrom(env, w, req, deadline, attempts, coded, transport, last, waits) ==
      match RoundOf(env, w, req, deadline, attempts, coded, transport, last, waits)
      case Halt(run) => run
      case Onward(w', coded', transport', f, waits') => RunFrom(env, w', req, deadline, attempts + 1, coded', transport', f, waits')
  {
    hide RoundOf;
  }

  /** The destroy loop. */
  method DestroySandbox<S, B, P>(env: Env<S, B, P>, w0: World<S, B>, path: string, nothing: B, builds: bool)
    returns (ending: Ending, w: World<S, B>)
    ensures var run := RunOf(env, w0, DeleteRequest(path, nothing, builds));
      ending == run.ending && w == run.world
  {
    hide Call, DeleteRequest, ToDuration, FromContext, RunOf, RunFrom;
    w := w0;
    var req := DeleteRequest(path, nothing, builds);
    var deadline := w.now + DEADLINE;
    var attempts: nat, codedRetries: nat, transportRetries: nat := 0, 0, 0;
    var lastErr := NoKey;
    ghost var waits: seq<int> := [];
    RunBegins(env, w0, req);
    while true
      invariant codedRetries <= CODED_LIMIT && transportRetries <= TRANSPORT_LIMIT
      invariant RunOf(env, w0, req) ==
        RunFrom(env, w, req, deadline, attempts, codedRetries, transportRetries, lastErr, waits)
      decreases CODED_LIMIT + TRANSPORT_LIMIT - codedRetries - transportRetries
    {
      RunGoesOn(env, w, req, deadline, attempts, codedRetries, transportRetries, lastErr, waits);
      if attempts > 0 && !(w.now < deadline) {
        return Exhausted(lastErr, attempts), w;
      }
      attempts := attempts + 1;
      var r;
      r, w := RequestInto(env, w, req);
      if r.Ok? {
        return Gone, w;
      }
      var err := r.failure;
      lastErr := err;
      var ok := err.ApiFailed?;
      if ok && err.status == 404 {
        return Gone, w;
      }
      var retryable := !ok;
      if ok {
        retryable := (err.code == "destroy_incomplete" || err.code == "destroy_outcome_unknown") && err.status == 504;
      }
      if !retryable {
        return Rejected(err), w;
      }
      if FromContext(err) || env.ended(|w.wire|) {
        return Aborted(err), w;
      }
      if !ok {
        if transportRetries + 1 > TRANSPORT_LIMIT {
          return Exhausted(err, attempts), w;
        }
        transportRetries := transportRetries + 1;
      } else if codedRetries >= |DELAYS| {
        return Exhausted(err, attempts), w;
      }
      var delayIndex := codedRetries;
      if !ok {
        delayIndex := transportRetries - 1;
      } else {
        codedRetries := codedRetries + 1;
      }
      var delay := DELAYS[delayIndex];
      if ok && err.retryAfterSeconds > 0.0 {
        var requested := ToDuration(err.retryAfterSeconds, env.outside);
        if requested > delay {
          delay := requested;
        }
      }
      if w.now + delay > deadline {
        return Exhausted(err, attempts), w;
      }
      var cut := env.nap(|w.slept|);
      w := Sleep(env, w, delay);
      waits := waits + [delay];
      if cut.Some? {
        return SleepFailed(cut.value), w;
      }
    }
  }

  // ----------------------------------------------------- bounds for every clock

  /** The counters of a run: every sleep spends one unit of a budget, every attempt but the
      first follows a sleep, and only a run that ends in a sleep, or past the deadline right
      after one, has no attempt after its last sleep. */
  ghost predicate Counted<S, B>(run: Run<S, B>, deadline: int) {
    && run.coded <= CODED_LIMIT && run.transport <= TRANSPORT_LIMIT
    && |run.waits| == run.coded + run.transport
    && run.attempts == |run.waits| + (if run.ending.SleepFailed? || LateExit(run, deadline) then 0 else 1)
    && (run.ending.Exhausted? ==> run.ending.attempts == run.attempts)
  }

  /** The deadline was found to have passed after a sleep. */
  ghost predicate LateExit<S, B>(run: Run<S, B>, deadline: int) {
    run.ending.Exhausted? && run.attempts == |run.waits| && run.world.now >= deadline
  }

  lemma BudgetsRound<S, B, P>(env: Env<S, B, P>, w: World<S, B>, req: Request<B>, deadline: int,
                              attempts: nat, coded: nat, transport: nat, last: Failure, waits: seq<int>)
    requires coded <= CODED_LIMIT && transport <= TRANSPORT_LIMIT
    requires attempts == |waits| == coded + transport
    ensures match RoundOf(env, w, req, deadline, attempts, coded, transport, last, waits)
      case Halt(run) => Counted(run, deadline) && attempts <= run.attempts <= attempts + 1 && (attempts == 0 ==> run.attempts == 1)
      case Onward(w', coded', transport', f, waits') => |waits'| == attempts + 1
  {
    hide Call, WorthRetrying, DelayFor, FromContext, NotFound;
  }

  lemma {:induction false} BudgetsFrom<S, B, P>(env: Env<S, B, P>, w: World<S, B>, req: Request<B>, deadline: int,
                                                attempts: nat, coded: nat, transport: nat, last: Failure, waits: seq<int>)
    requires coded <= CODED_LIMIT && transport <= TRANSPORT_LIMIT
    requires attempts == |waits| == coded + transport
    ensures var run := RunFrom(env, w, req, deadline, attempts, coded, transport, last, waits);
      Counted(run, deadline) && run.attempts >= 1 && run.attempts >= attempts
    decreases CODED_LIMIT + TRANSPORT_LIMIT - coded - transport
  {
    hide RoundOf, Counted;
    BudgetsRound(env, w, req, deadline, attempts, coded, transport, last, waits);
    var round := RoundOf(env, w, req, deadline, attempts, coded, transport, last, waits);
    if round.Onward? {
      BudgetsFrom(env, round.world, req, deadline, attempts + 1, round.coded, round.transport, round.failure, round.waits);
    }
  }

  /** A bounded number of messages for every attempt. */
  ghost predicate Sends<S, B>(w: World<S, B>, after: World<S, B>, attempts: int, most: nat) {
    attempts >= 0 && |w.wire| <= |after.wire| <= |w.wire| + attempts * most
  }

  lemma SendsMore<S, B>(w: World<S, B>, rested: World<S, B>, after: World<S, B>, attempts: int, most: nat)
    requires |w.wire| <= |rested.wire| <= |w.wire| + most && Sends(rested, after, attempts - 1, most)
    ensures Sends(w, after, attempts, most)
  {
    assert (attempts - 1) * most + most == attempts * most;
  }

  lemma MessagesRound<S, B, P>(env: Env<S, B, P>, w: World<S, B>, req: Request<B>, deadline: int,
                               attempts: nat, coded: nat, transport: nat, last: Failure, waits: seq<int>)
    requires coded <= CODED_LIMIT && transport <= TRANSPORT_LIMIT
    ensures match RoundOf(env, w, req, deadline, attempts, coded, transport, last, waits)
      case Halt(run) => attempts <= run.attempts && Sends(w, run.world, run.attempts - attempts, env.retries + 1)
      case Onward(w', _, _, _, _) => |w.wire| <= |w'.wire| <= |w.wire| + env.retries + 1
  {
    hide Call, WorthRetrying, DelayFor, FromContext, NotFound;
    CallShape(env, w, req);
  }

  lemma {:induction false} MessagesFrom<S, B, P>(env: Env<S, B, P>, w: World<S, B>, req: Request<B>, deadline: int,
                                                 attempts: nat, coded: nat, transport: nat, last: Failure, waits: seq<int>)
    requires coded <= CODED_LIMIT && transport <= TRANSPORT_LIMIT
    ensures var run := RunFrom(env, w, req, deadline, attempts, coded, transport, last, waits);
      Sends(w, run.world, run.attempts - attempts, env.retries + 1)
    decreases CODED_LIMIT + TRANSPORT_LIMIT - coded - transport
  {
    hide RoundOf, Sends;
    MessagesRound(env, w, req, deadline, attempts, coded, transport, last, waits);
    var round := RoundOf(env, w, req, deadline, attempts, coded, transport, last, waits);
    if round.Onward? {
      MessagesFrom(env, round.world, req, deadline, attempts + 1, round.coded, round.transport, round.failure, round.waits);
      var run := RunFrom(env, round.world, req, deadline, attempts + 1, round.coded, round.transport, round.failure, round.waits);
      SendsMore(w, round.world, run.world, run.attempts - attempts, env.retries + 1);
    }
  }

  /** Whatever the clock does: at most 9 attempts, one more than there were sleeps unless
      the run ends in a sleep or after one, and a bounded number of messages. */
  lemma Budgets<S, B, P>(env: Env<S, B, P>, w: World<S, B>, req: Request<B>)
    ensures var run := RunOf(env, w, req);
      && Counted(run, w.now + DEADLINE)
      && 1 <= run.attempts <= CODED_LIMIT + TRANSPORT_LIMIT + 1
      && |w.wire| <= |run.world.wire| <= |w.wire| + run.attempts * (env.retries + 1)
  {
    hide RunFrom;
    BudgetsFrom(env, w, req, w.now + DEADLINE, 0, 0, 0, NoKey, []);
    MessagesFrom(env, w, req, w.now + DEADLINE, 0, 0, 0, NoKey, []);
  }
}
