/** The life of a sandbox: what a successful release means, and the scope that creates a
    sandbox, lends it to a callback and always releases it. */
module Lifecycle {
  import opened Text
  import opened Routes
  import opened Backoff
  import opened Transport
  import opened Delivery
  import opened Destroy

  /** What is assumed of the service that holds the sandbox: carrying a DELETE out makes
      it gone, a success says the DELETE was carried out, and 404 says it is gone. */
  ghost predicate TrustworthyDelete<S(!new), B(!new), P>(env: Env<S, B, P>, gone: S -> bool, path: string) {
    && Honest(env)
    && (forall s: S, m: Wire<B> :: m.verb == "DELETE" && m.path == path ==> gone(env.apply(s, m)))
    && (forall n: nat, s: S, m: Wire<B> :: m.verb == "DELETE" && m.path == path ==> NotFoundMeansGone(env.net(n, s, m), gone(s)))
  }

  predicate NotFoundMeansGone<P>(o: Outcome<P>, isGone: bool) {
    o.Arrived? && o.reply.Response? && o.reply.status == 404 ==> isGone
  }

  /** The failures and answers the client takes to mean that nothing is left. */
  predicate SaysGone<P>(r: Result<P>) {
    r.Ok? || NotFound(r.failure)
  }

  lemma {:induction false} AttemptsSayGone<S(!new), B(!new), P>(env: Env<S, B, P>, gone: S -> bool, w: World<S, B>, m: Wire<B>, attempt: nat)
    requires m.verb == "DELETE" && m.key == "" && TrustworthyDelete(env, gone, m.path)
    ensures var (r, after) := Attempts(env, w, m, false, attempt);
      SaysGone(r) ==> gone(after.state)
    decreases env.retries - attempt
  {
    hide RetryDelay, Replayable;
    var o := Fate(env, w, m);
    assert HonestOutcome(o) && NotFoundMeansGone(o, gone(w.state));
    var after := Send(env, w, m);
    assert gone(env.apply(w.state, m));
    var verdict := Judge(o, attempt, env.retries, Replayable(m.verb, m.path), false, env.outside);
    if verdict.Again? && env.nap(|after.slept|).None? {
      AttemptsSayGone(env, gone, Sleep(env, after, verdict.delay), m, attempt + 1);
    }
  }

  lemma CallSaysGone<S(!new), B(!new), P>(env: Env<S, B, P>, gone: S -> bool, w: World<S, B>, path: string, nothing: B, builds: bool)
    requires TrustworthyDelete(env, gone, path)
    ensures var (r, after) := Call(env, w, DeleteRequest(path, nothing, builds));
      SaysGone(r) ==> gone(after.state)
  {
    if builds {
      AttemptsSayGone(env, gone, w, Wire("DELETE", path, nothing, ""), 0);
    }
  }

  lemma {:induction false} RunEndsGone<S(!new), B(!new), P>(env: Env<S, B, P>, gone: S -> bool, w: World<S, B>, path: string, nothing: B, builds: bool,
      deadline: int, attempts: nat, coded: nat, transport: nat, last: Failure, waits: seq<int>)
    requires TrustworthyDelete(env, gone, path)
    requires coded <= CODED_LIMIT && transport <= TRANSPORT_LIMIT
    ensures var run := RunFrom(env, w, DeleteRequest(path, nothing, builds), deadline, attempts, coded, transport, last, waits);
      run.ending.Gone? ==> gone(run.world.state)
    decreases CODED_LIMIT + TRANSPORT_LIMIT - coded - transport
  {
    hide Call, DelayFor, DeleteRequest, TrustworthyDelete;
    CallSaysGone(env, gone, w, path, nothing, builds);
    var round := RoundOf(env, w, DeleteRequest(path, nothing, builds), deadline, attempts, coded, transport, last, waits);
    if round.Onward? {
      RunEndsGone(env, gone, round.world, path, nothing, builds, deadline, attempts + 1,
                  round.coded, round.transport, round.failure, round.waits);
    }
  }

  /** Over every run, with replies lost, sleeps cut short and failures in any order: nil
      means that the sandbox no longer exists. */
  lemma NilMeansGone<S(!new), B(!new), P>(env: Env<S, B, P>, gone: S -> bool, w: World<S, B>, path: string, nothing: B, builds: bool)
    requires TrustworthyDelete(env, gone, path)
    ensures var run := RunOf(env, w, DeleteRequest(path, nothing, builds));
      run.ending.Gone? ==> gone(run.world.state)
  {
    RunEndsGone(env, gone, w, path, nothing, builds, w.now + DEADLINE, 0, 0, 0, NoKey, []);
  }

  // ------------------------------------------------------------------ the scope

  datatype ScopeResult<E> =
    | Nil
    | NotCreated(failure: Failure)
    | CallbackFailed(error: E)
    | NotReleased(ending: Ending)
    | BothFailed(error: E, ending: Ending)

  function Joined<E>(error: Option<E>, ending: Ending): ScopeResult<E> {
    match (error, ending)
    case (None, Gone) => Nil
    case (None, _) => NotReleased(ending)
    case (Some(e), Gone) => CallbackFailed(e)
    case (Some(e), _) => BothFailed(e, ending)
  }

  /** Creates a sandbox, lends it to `callback`, and releases it in an environment of its
      own, `cleanup`, that the caller's context does not end. Nothing is released that was
      not created; what was created is released exactly once, last; and nil means that the
      callback succeeded and the sandbox is gone. */
  method WithSandbox<S(!new), B(!new), P, E>(
      env: Env<S, B, P>, cleanup: Env<S, B, P>, w0: World<S, B>, create: Request<B>, nothing: B,
      pathOf: Option<P> -> string, callback: (World<S, B>, Option<P>) -> (World<S, B>, Option<E>),
      ghost gone: S -> bool)
    returns (result: ScopeResult<E>, w: World<S, B>)
    ensures var (r, created) := Call(env, w0, create);
      if r.Err? then result == NotCreated(r.failure) && w == created
      else
        var (used, error) := callback(created, r.payload);
        var run := RunOf(cleanup, used, DeleteRequest(pathOf(r.payload), nothing, true));
        && w == run.world
        // every failure is reported, the callback's and the release's alike
        && (result.Nil? <==> error.None? && run.ending.Gone?)
        && (result.CallbackFailed? <==> error.Some? && run.ending.Gone?)
        && (result.NotReleased? <==> error.None? && !run.ending.Gone?)
        && (result.CallbackFailed? || result.BothFailed? ==> Some(result.error) == error)
        && (result.NotReleased? || result.BothFailed? ==> result.ending == run.ending)
        && !result.NotCreated?
        && (TrustworthyDelete(cleanup, gone, pathOf(r.payload)) && result.Nil? ==> error.None? && gone(w.state))
  {
    var r;
    r, w := RequestInto(env, w0, create);
    if r.Err? {
      return NotCreated(r.failure), w;
    }
    var path := pathOf(r.payload);
    var (lent, error) := callback(w, r.payload);
    w := lent;
    ghost var used := w;
    var ending;
    ending, w := DestroySandbox(cleanup, w, path, nothing, true);
    result := Joined(error, ending);
    if TrustworthyDelete(cleanup, gone, path) {
      NilMeansGone(cleanup, gone, used, path, nothing, true);
    }
  }
}
