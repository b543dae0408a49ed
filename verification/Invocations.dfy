/** Invocations as requests: what the body and key of a run mean once they go over the wire. */
module Invocations {
  import opened RunSpec
  import opened FunctionSpec
  import opened Transport
  import opened Delivery

  const RUN := "/v1/run"

  /** The request a submitted run becomes. */
  function RunRequest(run: Submission, builds: bool): Request<Body>
    requires run.Submitted?
  {
    Request("POST", RUN, run.body, run.key, true, builds, true)
  }

  /** A run always has a key: its caller's, or one of its own. */
  lemma RunsAreGuarded(run: Submission, builds: bool)
    requires run.Submitted?
    ensures Guarded(RunRequest(run, builds))
    ensures NeedsKey(RunRequest(run, builds)) <==> run.key == ""
  {
    Routes.FixedRoutesAreKeyed(RUN, "");
    assert RUN + "" == RUN;
  }

  /** Two plain invocations of one function, anywhere in a history of calls: neither brings
      a key, they never share one, and each takes effect at most once; where generated keys
      are apart from all others, each that succeeds is carried out exactly once. */
  lemma InvocationsAreSeparate<S(!new), P>(env: Env<S, Body, P>, w: World<S, Body>, reqs: seq<Request<Body>>, i: nat, j: nat,
                                           first: Submission, second: Submission, c: Command, o: Options, builds: bool)
    requires Honest(env) && FreshKeys(env) && Settled(c, o)
    requires RunsAs(first, c, o) && RunsAs(second, c, o)
    requires i < j < |reqs| && reqs[i] == RunRequest(first, builds) && reqs[j] == RunRequest(second, builds)
    ensures var a, b := KeyOf(env, Calls(env, w, reqs[..i]), reqs[i]), KeyOf(env, Calls(env, w, reqs[..j]), reqs[j]);
      a != Text.Some("") && b != Text.Some("") && (a.Some? ==> a != b)
    ensures TakesEffectAtMostOnce(env, Calls(env, w, reqs[..i]), reqs[i])
    ensures TakesEffectAtMostOnce(env, Calls(env, w, reqs[..j]), reqs[j])
    ensures KeysApart(env, w, reqs) ==>
      OnceIfOk(env, Calls(env, w, reqs[..i]), reqs[i]) && OnceIfOk(env, Calls(env, w, reqs[..j]), reqs[j])
  {
    hide Shows, RunField;
    RunsAreGuarded(first, builds);
    RunsAreGuarded(second, builds);
    KeysNeverShared(env, w, reqs, i, j);
    CallAtMostOnce(env, Calls(env, w, reqs[..i]), reqs[i]);
    CallAtMostOnce(env, Calls(env, w, reqs[..j]), reqs[j]);
    if KeysApart(env, w, reqs) {
      NewKeysRunOnce(env, w, reqs, i);
      NewKeysRunOnce(env, w, reqs, j);
    }
  }

  /** One whole call leaves the service as it was or carries its message out once; it
      carries it out if it succeeds under a key that is new to the service. */
  ghost predicate TakesEffectAtMostOnce<S, P>(env: Env<S, Body, P>, w: World<S, Body>, req: Request<Body>) {
    var (r, after) := Call(env, w, req);
    var key := KeyOf(env, w, req);
    if key.None? then Untouched(w, after) && r == Err(NoKey)
    else
      && (Untouched(w, after) || Once(env, w, after, Message(req, key.value)))
      && (r.Ok? && key.value !in w.seen && key.value != "" ==> Once(env, w, after, Message(req, key.value)))
  }

  /** Invoking again under the same key replays the first invocation: both calls together
      take effect at most once, and exactly once if either succeeds. */
  lemma SameKeyRunsOnce<S(!new), P>(env: Env<S, Body, P>, w: World<S, Body>, run: Submission, builds: bool)
    requires Honest(env) && FreshKeys(env) && run.Submitted? && run.key != "" && run.key !in w.seen
    ensures var req := RunRequest(run, builds);
      var (r1, between) := Call(env, w, req);
      var (r2, after) := Call(env, between, req);
      && (Untouched(w, after) || Once(env, w, after, Message(req, run.key)))
      && (r1.Ok? || r2.Ok? ==> Once(env, w, after, Message(req, run.key)))
  {
    var req := RunRequest(run, builds);
    RunsAreGuarded(run, builds);
    CallAtMostOnce(env, w, req);
    CallAtMostOnce(env, Call(env, w, req).1, req);
  }
}
