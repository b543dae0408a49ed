/** How a release ends, attempt by attempt: which failures are tried again, after which
    pause, and which ending each of the others leads to. */
module Releases {
  import opened Text
  import opened Backoff
  import opened Transport
  import opened Destroy

  // ------------------------------------------------------------- one attempt

  /** The service has nothing left of the sandbox, or says so. */
  predicate NothingLeft<P>(r: Result<P>) {
    r.Ok? || (r.failure.ApiFailed? && r.failure.status == 404)
  }

  /** An answer that will not change: anything but 504 with one of two codes. */
  predicate Final(f: Failure) {
    f.ApiFailed? && !(f.status == 504 && f.code in {"destroy_incomplete", "destroy_outcome_unknown"})
  }

  /** The context ended, before the failure or by now. */
  predicate Interrupted<S, B, P>(env: Env<S, B, P>, f: Failure, after: World<S, B>) {
    || ((f.TransportFailed? || f.ReadFailed? || f.SleepCut?) && (f.cause.Canceled? || f.cause.DeadlineExceeded?))
    || env.ended(|after.wire|)
  }

  /** No more than six coded answers and two failures without an answer are slept off. */
  predicate Spent(f: Failure, coded: nat, transport: nat) {
    if f.ApiFailed? then coded >= 6 else transport >= 2
  }

  /** The n-th pause of either kind; a longer Retry-After replaces it. */
  function Pause(f: Failure, coded: nat, transport: nat, outside: int): int
    requires !Spent(f, coded, transport)
  {
    var seconds := [1, 2, 4, 8, 16, 30][if f.ApiFailed? then coded else transport];
    var asked := if f.ApiFailed? && f.retryAfterSeconds > 0.0 then ToDuration(f.retryAfterSeconds, outside) else 0;
    if asked > seconds * 1_000_000_000 then asked else seconds * 1_000_000_000
  }

  /** Where the loop is: what it has spent, how it paused, and the last failure. */
  datatype Head<S, B> = Head(world: World<S, B>, coded: nat, transport: nat, last: Failure, waits: seq<int>) {
    function Close(ending: Ending, world: World<S, B>, attempts: nat): Run<S, B> {
      Run(ending, world, attempts, coded, transport, waits)
    }
  }

  /** The head after an attempt that failed with `f`, and its pause. */
  function Paused<S, B, P>(env: Env<S, B, P>, h: Head<S, B>, f: Failure, after: World<S, B>): Head<S, B>
    requires !Spent(f, h.coded, h.transport)
  {
    var pause := Pause(f, h.coded, h.transport, env.outside);
    if f.ApiFailed? then Head(Sleep(env, after, pause), h.coded + 1, h.transport, f, h.waits + [pause])
    else Head(Sleep(env, after, pause), h.coded, h.transport + 1, f, h.waits + [pause])
  }

  /** How the run ends at this head, after `k` attempts; none if it is tried again. */
  function EndAt<S, B, P>(env: Env<S, B, P>, h: Head<S, B>, req: Request<B>, deadline: int, k: nat): Option<Run<S, B>> {
    if k > 0 && h.world.now >= deadline then Some(h.Close(Exhausted(h.last, k), h.world, k))
    else
      var (r, after) := Call(env, h.world, req);
      if NothingLeft(r) then Some(h.Close(Gone, after, k + 1))
      else if Final(r.failure) then Some(h.Close(Rejected(r.failure), after, k + 1))
      else if Interrupted(env, r.failure, after) then Some(h.Close(Aborted(r.failure), after, k + 1))
      else if Spent(r.failure, h.coded, h.transport) || after.now + Pause(r.failure, h.coded, h.transport, env.outside) > deadline then
        Some(h.Close(Exhausted(r.failure, k + 1), after, k + 1))
      else match env.nap(|after.slept|)
        case Some(cause) =>
          var cut := Paused(env, h, r.failure, after);
          Some(cut.Close(SleepFailed(cause), cut.world, k + 1))
        case None => None
  }

  /** The head after one more attempt and its pause. */
  function Beyond<S, B, P>(env: Env<S, B, P>, h: Head<S, B>, req: Request<B>): Head<S, B> {
    var (r, after) := Call(env, h.world, req);
    if r.Ok? || Spent(r.failure, h.coded, h.transport) then h else Paused(env, h, r.failure, after)
  }

  // ---------------------------------------------------------------- whole runs

  function HeadAt<S, B, P>(env: Env<S, B, P>, w: World<S, B>, req: Request<B>, k: nat): Head<S, B> {
    if k == 0 then Head(w, 0, 0, NoKey, []) else Beyond(env, HeadAt(env, w, req, k - 1), req)
  }

  /** The first `k` attempts of a run are all tried again. */
  ghost predicate GoesOn<S, B, P>(env: Env<S, B, P>, w: World<S, B>, req: Request<B>, k: nat) {
    forall i: nat :: i < k ==> EndAt(env, HeadAt(env, w, req, i), req, w.now + DEADLINE, i).None?
  }

  /** The rest of a run from a head. */
  function From<S, B, P>(env: Env<S, B, P>, h: Head<S, B>, req: Request<B>, deadline: int, k: nat): Run<S, B>
    requires h.coded <= CODED_LIMIT && h.transport <= TRANSPORT_LIMIT
  {
    RunFrom(env, h.world, req, deadline, k, h.coded, h.transport, h.last, h.waits)
  }

  ghost predicate WithinBudgets<S, B>(h: Head<S, B>, k: nat) {
    h.coded <= CODED_LIMIT && h.transport <= TRANSPORT_LIMIT && h.coded + h.transport == k
  }

  lemma PauseIsDelay(f: Failure, coded: nat, transport: nat, outside: int)
    requires !Spent(f, coded, transport)
    ensures Pause(f, coded, transport, outside) == DelayFor(f, if f.ApiFailed? then coded else transport, outside)
  {
    hide ToDuration;
  }

  /** One round of the loop does what the head says. */
  lemma RoundSays<S, B, P>(env: Env<S, B, P>, h: Head<S, B>, req: Request<B>, deadline: int, k: nat)
    requires WithinBudgets(h, k)
    ensures match EndAt(env, h, req, deadline, k) {
      case Some(run) => From(env, h, req, deadline, k) == run
      case None =>
        var h' := Beyond(env, h, req);
        WithinBudgets(h', k + 1) && From(env, h, req, deadline, k) == From(env, h', req, deadline, k + 1)
    }
  {
    hide Call, RunFrom, DelayFor, Pause;
    RunGoesOn(env, h.world, req, deadline, k, h.coded, h.transport, h.last, h.waits);
    var (r, after) := Call(env, h.world, req);
    if r.Err? && !Spent(r.failure, h.coded, h.transport) {
      PauseIsDelay(r.failure, h.coded, h.transport, env.outside);
    }
  }

  /** The run after `k` attempts that were tried again is the rest of the run from there. */
  lemma {:induction false} RunReaches<S, B, P>(env: Env<S, B, P>, w: World<S, B>, req: Request<B>, k: nat)
    requires GoesOn(env, w, req, k)
    ensures var h := HeadAt(env, w, req, k);
      WithinBudgets(h, k) && RunOf(env, w, req) == From(env, h, req, w.now + DEADLINE, k)
  {
    hide EndAt, Beyond, RunFrom;
    if k == 0 {
      RunBegins(env, w, req);
    } else {
      RunReaches(env, w, req, k - 1);
      RoundSays(env, HeadAt(env, w, req, k - 1), req, w.now + DEADLINE, k - 1);
    }
  }

  /** The run ends with attempt number `k`, or before it. */
  ghost predicate LastRound<S, B, P>(env: Env<S, B, P>, w: World<S, B>, req: Request<B>, k: nat) {
    GoesOn(env, w, req, k) && EndAt(env, HeadAt(env, w, req, k), req, w.now + DEADLINE, k).Some?
  }

  lemma {:induction false} SomeLastRound<S, B, P>(env: Env<S, B, P>, w: World<S, B>, req: Request<B>, k: nat)
    requires GoesOn(env, w, req, k)
    ensures exists n :: n >= k && LastRound(env, w, req, n)
    decreases CODED_LIMIT + TRANSPORT_LIMIT - k
  {
    hide EndAt, HeadAt, From, RunOf;
    RunReaches(env, w, req, k);
    if EndAt(env, HeadAt(env, w, req, k), req, w.now + DEADLINE, k).Some? {
      assert LastRound(env, w, req, k);
    } else {
      forall i: nat | i < k + 1 ensures EndAt(env, HeadAt(env, w, req, i), req, w.now + DEADLINE, i).None? {
        assert i == k || i < k;
      }
      RunReaches(env, w, req, k + 1);
      SomeLastRound(env, w, req, k + 1);
    }
  }

  /** Every release has a last round, and comes to exactly what that round says. */
  lemma ReleasesConclude<S, B, P>(env: Env<S, B, P>, w: World<S, B>, req: Request<B>)
    ensures exists k :: LastRound(env, w, req, k)
    ensures forall k: nat :: LastRound(env, w, req, k) ==>
      EndAt(env, HeadAt(env, w, req, k), req, w.now + DEADLINE, k) == Some(RunOf(env, w, req))
  {
    hide EndAt, HeadAt, From, RunOf;
    SomeLastRound(env, w, req, 0);
    forall k: nat | LastRound(env, w, req, k)
      ensures EndAt(env, HeadAt(env, w, req, k), req, w.now + DEADLINE, k) == Some(RunOf(env, w, req))
    {
      RunReaches(env, w, req, k);
      RoundSays(env, HeadAt(env, w, req, k), req, w.now + DEADLINE, k);
    }
  }

  /** Attempt number `k` is made. */
  ghost predicate IsMade<S, B, P>(env: Env<S, B, P>, w: World<S, B>, req: Request<B>, k: nat) {
    GoesOn(env, w, req, k) && (k == 0 || HeadAt(env, w, req, k).world.now < w.now + DEADLINE)
  }

  /** A release ends in nil exactly when some attempt succeeds or is answered 404. */
  lemma NilExactly<S, B, P>(env: Env<S, B, P>, w: World<S, B>, req: Request<B>)
    ensures RunOf(env, w, req).ending.Gone? <==>
      exists k: nat :: IsMade(env, w, req, k) && NothingLeft(Call(env, HeadAt(env, w, req, k).world, req).0)
  {
    hide HeadAt, RunFrom, RunOf, Call, Pause, Final, Interrupted;
    ReleasesConclude(env, w, req);
    if RunOf(env, w, req).ending.Gone? {
      var k :| LastRound(env, w, req, k);
      assert IsMade(env, w, req, k) && NothingLeft(Call(env, HeadAt(env, w, req, k).world, req).0);
    }
    forall k: nat | IsMade(env, w, req, k) && NothingLeft(Call(env, HeadAt(env, w, req, k).world, req).0)
      ensures RunOf(env, w, req).ending.Gone?
    {
      assert LastRound(env, w, req, k);
    }
  }
}
