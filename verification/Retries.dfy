/** Which failures are tried again, and how a request gets through them. */
module Retries {
  import opened Text
  import opened Routes
  import opened Backoff
  import opened Transport

  // ------------------------------------------------------------- which failures

  /** A failure that may pass: no answer, or an answer that says to come back. */
  predicate MayPass<P>(o: Outcome<P>) {
    match o
    case Dropped(_) => true
    case Arrived(_, Lost(_)) => true
    case Arrived(_, Torn(_)) => true
    case Arrived(_, Response(status, code, _, _, _)) =>
      && !(200 <= status <= 299)
      && (status in {429, 500, 502, 503, 504} || code in {"idempotency_key_in_flight", "reattach_in_flight"})
  }

  /** A request that is not replayed is only sent again if it was turned away unprocessed. */
  predicate TriedAgain<P>(o: Outcome<P>, replayed: bool) {
    if replayed then MayPass(o) else o.Arrived? && o.reply.Response? && o.reply.status == 429
  }

  /** What the caller is told of the outcome a call ends with. A delay the answer names in
      its body comes before one in its header. */
  function Report<P>(o: Outcome<P>, wantsOutput: bool): Result<P> {
    match o
    case Dropped(cause) => Err(TransportFailed(cause))
    case Arrived(_, Lost(cause)) => Err(TransportFailed(cause))
    case Arrived(_, Torn(cause)) => Err(ReadFailed(cause))
    case Arrived(_, Response(status, code, seconds, header, body)) =>
      if !(200 <= status <= 299) then Err(ApiFailed(status, code, if seconds != 0.0 then seconds else header.verbatim.GetOr(0.0)))
      else if !wantsOutput || status == 204 then Ok(None)
      else match body
        case Empty => Ok(None)
        case Garbled => Err(NotDecodable)
        case Decoded(payload) => Ok(Some(payload))
  }

  /** The delay the answer asks for. */
  function Asked<P>(o: Outcome<P>): Option<real> {
    if o.Arrived? && o.reply.Response? then o.reply.header.trimmed else None
  }

  lemma JudgedSo<P>(o: Outcome<P>, attempt: nat, retries: nat, replayed: bool, wantsOutput: bool, outside: int)
    ensures Judge(o, attempt, retries, replayed, wantsOutput, outside) ==
      if attempt < retries && TriedAgain(o, replayed) then Again(RetryDelay(attempt, Asked(o), outside))
      else Stop(Report(o, wantsOutput))
  {
    hide RetryDelay;
  }

  // ------------------------------------------------------------- getting through

  /** The world after `k` attempts of `m`, each followed by its sleep. */
  function Trail<S, B, P>(env: Env<S, B, P>, w: World<S, B>, m: Wire<B>, k: nat): World<S, B> {
    if k == 0 then w else
      var before := Trail(env, w, m, k - 1);
      Sleep(env, Send(env, before, m), RetryDelay(k - 1, Asked(Fate(env, before, m)), env.outside))
  }

  /** Attempt number `k` fails in a way that is tried again. */
  predicate FailsAt<S, B, P>(env: Env<S, B, P>, w: World<S, B>, m: Wire<B>, k: nat) {
    TriedAgain(Fate(env, Trail(env, w, m, k), m), Replayable(m.verb, m.path))
  }

  /** The first `k` attempts do, and no sleep after them is cut short. */
  ghost predicate Persists<S, B, P>(env: Env<S, B, P>, w: World<S, B>, m: Wire<B>, k: nat) {
    forall i: nat :: i < k ==> FailsAt(env, w, m, i) && env.nap(|w.slept| + i).None?
  }

  lemma {:induction false} TrailGrows<S, B, P>(env: Env<S, B, P>, w: World<S, B>, m: Wire<B>, k: nat)
    ensures |Trail(env, w, m, k).wire| == |w.wire| + k && |Trail(env, w, m, k).slept| == |w.slept| + k
  {
    hide RetryDelay, TakesEffect;
    if k > 0 {
      TrailGrows(env, w, m, k - 1);
    }
  }

  lemma {:induction false} AttemptsFollow<S, B, P>(env: Env<S, B, P>, w: World<S, B>, m: Wire<B>, wantsOutput: bool, k: nat)
    requires k <= env.retries && Persists(env, w, m, k)
    ensures Attempts(env, w, m, wantsOutput, 0) == Attempts(env, Trail(env, w, m, k), m, wantsOutput, k)
  {
    hide RetryDelay, Send, Fate, Judge, TriedAgain, Replayable, Report;
    if k > 0 {
      AttemptsFollow(env, w, m, wantsOutput, k - 1);
      TrailGrows(env, w, m, k - 1);
      assert FailsAt(env, w, m, k - 1) && env.nap(|w.slept| + (k - 1)).None?;
      var before := Trail(env, w, m, k - 1);
      JudgedSo(Fate(env, before, m), k - 1, env.retries, Replayable(m.verb, m.path), wantsOutput, env.outside);
      AttemptStep(env, before, m, wantsOutput, k - 1);
    }
  }

  lemma AttemptStep<S, B, P>(env: Env<S, B, P>, w: World<S, B>, m: Wire<B>, wantsOutput: bool, attempt: nat)
    ensures var after := Send(env, w, m);
      |after.slept| == |w.slept| &&
      Attempts(env, w, m, wantsOutput, attempt) ==
        match Judge(Fate(env, w, m), attempt, env.retries, Replayable(m.verb, m.path), wantsOutput, env.outside)
        case Stop(r) => (r, after)
        case Again(delay) =>
          if env.nap(|w.slept|).Some? then (Err(SleepCut(env.nap(|w.slept|).value)), Sleep(env, after, delay))
          else Attempts(env, Sleep(env, after, delay), m, wantsOutput, attempt + 1)
  {
    hide Judge, TakesEffect, Replayable;
  }

  /** After `k` failures that are tried again, the call ends with the next outcome if that
      is not one of them, or if it was the last retry; it has sent exactly k + 1 messages. */
  lemma EndsWith<S, B, P>(env: Env<S, B, P>, w: World<S, B>, m: Wire<B>, wantsOutput: bool, k: nat)
    requires k <= env.retries && Persists(env, w, m, k)
    requires k == env.retries || !FailsAt(env, w, m, k)
    ensures var last := Trail(env, w, m, k);
      && Attempts(env, w, m, wantsOutput, 0) == (Report(Fate(env, last, m), wantsOutput), Send(env, last, m))
      && |Send(env, last, m).wire| == |w.wire| + k + 1
  {
    hide RetryDelay, Judge, TriedAgain, Replayable, Report, Trail, Fate;
    var last := Trail(env, w, m, k);
    AttemptsFollow(env, w, m, wantsOutput, k);
    TrailGrows(env, w, m, k);
    JudgedSo(Fate(env, last, m), k, env.retries, Replayable(m.verb, m.path), wantsOutput, env.outside);
    AttemptStep(env, last, m, wantsOutput, k);
  }

  /** A sleep that is cut short ends the call. */
  lemma EndsInSleep<S, B, P>(env: Env<S, B, P>, w: World<S, B>, m: Wire<B>, wantsOutput: bool, k: nat)
    requires k < env.retries && Persists(env, w, m, k) && FailsAt(env, w, m, k) && env.nap(|w.slept| + k).Some?
    ensures Attempts(env, w, m, wantsOutput, 0) == (Err(SleepCut(env.nap(|w.slept| + k).value)), Trail(env, w, m, k + 1))
  {
    hide RetryDelay, Judge, TriedAgain, Replayable, Report, Fate, Send;
    var last := Trail(env, w, m, k);
    AttemptsFollow(env, w, m, wantsOutput, k);
    TrailGrows(env, w, m, k);
    JudgedSo(Fate(env, last, m), k, env.retries, Replayable(m.verb, m.path), wantsOutput, env.outside);
    AttemptStep(env, last, m, wantsOutput, k);
  }

  /** Attempt number `n` is the last: the ones before it fail and are tried again, and it
      does not, or it was the last retry, or the sleep after it is cut short. */
  ghost predicate LastAttempt<S, B, P>(env: Env<S, B, P>, w: World<S, B>, m: Wire<B>, n: nat) {
    && n <= env.retries && Persists(env, w, m, n)
    && (n == env.retries || !FailsAt(env, w, m, n) || env.nap(|w.slept| + n).Some?)
  }

  /** What comes of a call whose last attempt is number `n`. */
  function Conclusion<S, B, P>(env: Env<S, B, P>, w: World<S, B>, m: Wire<B>, wantsOutput: bool, n: nat): (Result<P>, World<S, B>) {
    var last := Trail(env, w, m, n);
    if n < env.retries && FailsAt(env, w, m, n) && env.nap(|w.slept| + n).Some? then
      (Err(SleepCut(env.nap(|w.slept| + n).value)), Trail(env, w, m, n + 1))
    else (Report(Fate(env, last, m), wantsOutput), Send(env, last, m))
  }

  lemma {:induction false} SomeLastAttempt<S, B, P>(env: Env<S, B, P>, w: World<S, B>, m: Wire<B>, k: nat)
    requires k <= env.retries && Persists(env, w, m, k)
    ensures exists n :: n >= k && LastAttempt(env, w, m, n)
    decreases env.retries - k
  {
    hide FailsAt;
    if k == env.retries || !FailsAt(env, w, m, k) || env.nap(|w.slept| + k).Some? {
      assert LastAttempt(env, w, m, k);
    } else {
      forall i: nat | i < k + 1 ensures FailsAt(env, w, m, i) && env.nap(|w.slept| + i).None? {
        assert i == k || i < k;
      }
      SomeLastAttempt(env, w, m, k + 1);
    }
  }

  /** Every call has a last attempt, and comes to exactly what that attempt decides. */
  lemma CallsConclude<S, B, P>(env: Env<S, B, P>, w: World<S, B>, m: Wire<B>, wantsOutput: bool)
    ensures exists n :: LastAttempt(env, w, m, n)
    ensures forall n: nat :: LastAttempt(env, w, m, n) ==>
      Attempts(env, w, m, wantsOutput, 0) == Conclusion(env, w, m, wantsOutput, n)
  {
    hide FailsAt, Attempts, Trail, Send, Report, Fate;
    SomeLastAttempt(env, w, m, 0);
    forall n: nat | LastAttempt(env, w, m, n)
      ensures Attempts(env, w, m, wantsOutput, 0) == Conclusion(env, w, m, wantsOutput, n)
    {
      if n < env.retries && FailsAt(env, w, m, n) && env.nap(|w.slept| + n).Some? {
        EndsInSleep(env, w, m, wantsOutput, n);
      } else {
        EndsWith(env, w, m, wantsOutput, n);
      }
    }
  }

  // ------------------------------------------------------- what a failed call met

  /** The run up to `w` ended in this failure: its last message was `m` and came to it, or
      its last sleep was cut short. */
  ghost predicate EndedIn<S(!new), B, P>(env: Env<S, B, P>, w: World<S, B>, m: Wire<B>, wantsOutput: bool, failure: Failure) {
    (w.wire != [] && w.wire[|w.wire| - 1] == m && FailedWith(env, |w.wire| - 1, m, wantsOutput, failure)) || RestCut(env, w, failure)
  }

  ghost predicate FailedWith<S(!new), B, P>(env: Env<S, B, P>, n: nat, m: Wire<B>, wantsOutput: bool, failure: Failure) {
    exists s :: CameTo(env, n, s, m, wantsOutput, failure)
  }

  predicate CameTo<S, B, P>(env: Env<S, B, P>, n: nat, s: S, m: Wire<B>, wantsOutput: bool, failure: Failure) {
    var r := Report(env.net(n, s, m), wantsOutput);
    r.Err? && r.failure == failure
  }

  predicate RestCut<S, B, P>(env: Env<S, B, P>, w: World<S, B>, failure: Failure) {
    w.slept != [] && env.nap(|w.slept| - 1).Some? && failure == SleepCut(env.nap(|w.slept| - 1).value)
  }

  lemma FailureIsMet<S(!new), B, P>(env: Env<S, B, P>, w: World<S, B>, m: Wire<B>, wantsOutput: bool)
    ensures var (r, after) := Attempts(env, w, m, wantsOutput, 0);
      r.Err? ==> EndedIn(env, after, m, wantsOutput, r.failure)
  {
    hide Attempts, FailsAt, Report, Trail, LastAttempt, TakesEffect;
    CallsConclude(env, w, m, wantsOutput);
    var n: nat :| LastAttempt(env, w, m, n);
    TrailGrows(env, w, m, n);
    TrailGrows(env, w, m, n + 1);
    var last := Trail(env, w, m, n);
    var (r, after) := Attempts(env, w, m, wantsOutput, 0);
    if r.Err? && !RestCut(env, after, r.failure) {
      assert CameTo(env, |last.wire|, last.state, m, wantsOutput, r.failure);
      assert FailedWith(env, |last.wire|, m, wantsOutput, r.failure);
    }
  }

  /** Getting through: a replayed request whose first `k` messages meet failures that may
      pass, with retries left and no sleep cut short, and whose next is answered with a
      success, returns that answer after exactly k + 1 messages. */
  lemma GetsThrough<S, B, P>(env: Env<S, B, P>, w: World<S, B>, req: Request<B>, k: nat, reply: Reply<P>, executes: bool)
    requires req.encodes && req.builds && KeyOf(env, w, req).Some? && Replayable(req.verb, req.path)
    requires var m, first := Message(req, KeyOf(env, w, req).value), Keyed(w, req);
      && k <= env.retries
      && (forall i: nat :: i < k ==> MayPass(Fate(env, Trail(env, first, m, i), m)) && env.nap(|w.slept| + i).None?)
      && Fate(env, Trail(env, first, m, k), m) == Arrived(executes, reply)
    requires reply.Response? && 200 <= reply.status <= 299 && !reply.body.Garbled?
    ensures var (r, after) := Call(env, w, req);
      && r == Ok(if req.wantsOutput && reply.status != 204 && reply.body.Decoded? then Some(reply.body.payload) else None)
      && |after.wire| == |w.wire| + k + 1
  {
    hide Attempts, Trail, Fate, MayPass, Replayable, Send, NeedsKey;
    var m, first := Message(req, KeyOf(env, w, req).value), Keyed(w, req);
    forall i: nat | i < k ensures FailsAt(env, first, m, i) && env.nap(|first.slept| + i).None? {
      assert MayPass(Fate(env, Trail(env, first, m, i), m));
    }
    assert !MayPass(Arrived(executes, reply)) by { SuccessIsNoFailure(executes, reply); }
    EndsWith(env, first, m, req.wantsOutput, k);
  }

  lemma SuccessIsNoFailure<P>(executes: bool, reply: Reply<P>)
    requires reply.Response? && 200 <= reply.status <= 299
    ensures !MayPass(Arrived(executes, reply))
  {
  }

  /** Every read is replayed, and of the other verbs only PUT and POST ever are. */
  lemma ReadsAreReplayed(verb: string, path: string)
    ensures verb == "GET" || verb == "HEAD" ==> Replayable(verb, path)
    ensures Replayable(verb, path) ==> verb in {"GET", "HEAD", "PUT", "POST"}
    ensures Replayable("PUT", path) ==> "/v1/sandboxes" <= path
  {
    hide ReplayablePattern, IdempotentPostPattern;
  }
}
