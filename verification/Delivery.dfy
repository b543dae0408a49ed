/** What the retry loop guarantees over every run: how often an operation takes effect,
    what goes over the wire, and how long the client waits. */
module Delivery {
  import opened Text
  import opened Routes
  import opened Backoff
  import opened Transport

  // --------------------------------------------------- what is assumed of a service

  /** A success answer means the operation is carried out (or was, under the same key);
      429 means it is not. Every other answer leaves it open. */
  ghost predicate Honest<S(!new), B(!new), P>(env: Env<S, B, P>) {
    forall n, s, m :: HonestOutcome(env.net(n, s, m))
  }

  predicate HonestOutcome<P>(o: Outcome<P>) {
    o.Arrived? && o.reply.Response? ==>
      && (Success(o.reply.status) ==> o.executes)
      && (o.reply.status == 429 ==> !o.executes)
  }

  // ------------------------------------------------------------ how often it happens

  /** The service as it was. */
  ghost predicate Untouched<S, B>(before: World<S, B>, after: World<S, B>) {
    after.state == before.state && after.seen == before.seen
  }

  /** The operation was carried out once, and its key is now known. */
  ghost predicate Once<S, B, P>(env: Env<S, B, P>, before: World<S, B>, after: World<S, B>, m: Wire<B>) {
    && (m.key == "" || m.key !in before.seen)
    && after.state == env.apply(before.state, m)
    && after.seen == if m.key == "" then before.seen else before.seen + {m.key}
  }

  predicate Safe<B>(m: Wire<B>) {
    m.key != "" || !Replayable(m.verb, m.path)
  }

  /** The service answered with a success. */
  predicate Confirmed<P>(r: Result<P>) {
    r.Ok? || r.failure.NotDecodable?
  }

  /** Messages with a key, and messages that are not replayed, take effect at most once;
      with a fresh key, or none, a confirmed one exactly once. */
  lemma {:induction false} AtMostOnce<S(!new), B(!new), P>(env: Env<S, B, P>, w: World<S, B>, m: Wire<B>, wantsOutput: bool, attempt: nat)
    requires Honest(env) && Safe(m)
    ensures var (r, after) := Attempts(env, w, m, wantsOutput, attempt);
      && (Untouched(w, after) || Once(env, w, after, m))
      && (Confirmed(r) && (m.key == "" || m.key !in w.seen) ==> Once(env, w, after, m))
      && (r.Err? && r.failure.ApiFailed? && r.failure.status == 429 && !Replayable(m.verb, m.path) ==> Untouched(w, after))
    decreases env.retries - attempt
  {
    var o := Fate(env, w, m);
    assert HonestOutcome(o);
    var after := Send(env, w, m);
    var verdict := Judge(o, attempt, env.retries, Replayable(m.verb, m.path), wantsOutput, env.outside);
    if verdict.Again? && env.nap(|after.slept|).None? {
      AtMostOnce(env, Sleep(env, after, verdict.delay), m, wantsOutput, attempt + 1);
    }
  }

  ghost predicate Idempotent<S(!new), B, P>(env: Env<S, B, P>, m: Wire<B>) {
    forall s :: env.apply(env.apply(s, m), m) == env.apply(s, m)
  }

  /** Any message of an idempotent operation ends as if sent zero times or once. */
  lemma {:induction false} IdempotentReplay<S(!new), B(!new), P>(env: Env<S, B, P>, w: World<S, B>, m: Wire<B>, wantsOutput: bool, attempt: nat)
    requires Honest(env) && Idempotent(env, m)
    ensures var (r, after) := Attempts(env, w, m, wantsOutput, attempt);
      && (after.state == w.state || after.state == env.apply(w.state, m))
      && (Confirmed(r) && (m.key == "" || m.key !in w.seen) ==> after.state == env.apply(w.state, m))
    decreases env.retries - attempt
  {
    if Safe(m) {
      AtMostOnce(env, w, m, wantsOutput, attempt);
    } else {
      var o := Fate(env, w, m);
      assert HonestOutcome(o);
      var after := Send(env, w, m);
      assert env.apply(env.apply(w.state, m), m) == env.apply(w.state, m);
      var verdict := Judge(o, attempt, env.retries, Replayable(m.verb, m.path), wantsOutput, env.outside);
      if verdict.Again? && env.nap(|after.slept|).None? {
        IdempotentReplay(env, Sleep(env, after, verdict.delay), m, wantsOutput, attempt + 1);
      }
    }
  }

  // ------------------------------------------------------- exactly when it is at most once

  /** A service that counts how often it carries something out. */
  ghost predicate Counts<B(!new), P>(env: Env<int, B, P>) {
    forall s, m :: env.apply(s, m) == s + 1
  }

  /** Never counted twice, whatever the environment. */
  ghost predicate NeverTwice<B(!new), P(!new)>(m: Wire<B>, retries: nat) {
    forall env: Env<int, B, P>, w: World<int, B>, wantsOutput: bool ::
      env.retries == retries && Honest(env) && Counts(env) ==>
        Attempts(env, w, m, wantsOutput, 0).1.state <= w.state + 1
  }

  /** The first answer is lost after the operation is carried out; the second arrives. */
  function LostThenAnswered<P>(n: nat): Outcome<P> {
    Arrived(true, if n == 0 then Lost(Plain) else Response(200, "", 0.0, Header(None, None), Empty))
  }

  function LosingEnv<B, P>(retries: nat): Env<int, B, P> {
    Env(retries, (n: nat, s: int, m: Wire<B>) => LostThenAnswered<P>(n), (s: int, m: Wire<B>) => s + 1,
        n => None, n => None, n => 0, (n, d) => 0, n => false, 0)
  }

  function Blank<B>(): World<int, B> {
    World(0, {}, [], [], 0, 0)
  }

  /** A replayed message without a key does take effect twice when an answer is lost. */
  lemma KeylessReplayCanRepeat<B(!new), P(!new)>(m: Wire<B>, retries: nat)
    requires retries >= 1 && m.key == "" && Replayable(m.verb, m.path)
    ensures var env := LosingEnv<B, P>(retries);
      && Honest(env) && Counts(env)
      && Attempts(env, Blank<B>(), m, false, 0).1.state == 2
  {
    var env := LosingEnv<B, P>(retries);
    var w := Blank<B>();
    var first := Send(env, w, m);
    var rested := Sleep(env, first, RetryDelay(0, None, 0));
    assert Attempts(env, w, m, false, 0) == Attempts(env, rested, m, false, 1);
    assert Fate(env, rested, m) == LostThenAnswered<P>(1);
  }

  /** At most once, whatever the network does, exactly for messages with a key, messages
      that are not replayed, and clients that do not retry. */
  lemma AtMostOnceExactly<B(!new), P(!new)>(m: Wire<B>, retries: nat)
    ensures NeverTwice<B, P>(m, retries) <==> Safe(m) || retries == 0
  {
    if Safe(m) || retries == 0 {
      forall env: Env<int, B, P>, w: World<int, B>, wantsOutput: bool
        | env.retries == retries && Honest(env) && Counts(env)
        ensures Attempts(env, w, m, wantsOutput, 0).1.state <= w.state + 1
      {
        if Safe(m) {
          AtMostOnce(env, w, m, wantsOutput, 0);
        }
        assert env.apply(w.state, m) == w.state + 1;
      }
    } else {
      KeylessReplayCanRepeat<B, P>(m, retries);
      var env, w := LosingEnv<B, P>(retries), Blank<B>();
      assert env.retries == retries && Attempts(env, w, m, false, 0).1.state == 2;
    }
  }

  // -------------------------------------------------------------- what goes over the wire

  ghost predicate Copies<B>(ms: seq<Wire<B>>, m: Wire<B>) {
    forall x :: x in ms ==> x == m
  }

  /** Every sleep asked for lies between 250 ms and 8 s. */
  predicate Measured(delays: seq<int>) {
    forall d :: d in delays ==> BASE <= d <= CAP
  }

  /** From `w` to `after`: between one and `most` copies of `m` were sent, with a sleep
      between any two of them, and one more at the end if it was cut short; there are
      fewer than `most` sleeps in all. */
  ghost predicate Shape<S, B>(w: World<S, B>, after: World<S, B>, m: Wire<B>, most: int, cut: bool, measured: bool) {
    && w.wire <= after.wire && w.slept <= after.slept
    && Copies(after.wire[|w.wire|..], m)
    && 1 <= |after.wire| - |w.wire| <= most
    && |after.slept| - |w.slept| <= most - 1
    && |after.slept| - |w.slept| == |after.wire| - |w.wire| - (if cut then 0 else 1)
    && (measured ==> Measured(after.slept[|w.slept|..]))
    && after.generated == w.generated
  }

  lemma ShapeOfOne<S, B>(w: World<S, B>, sent: World<S, B>, m: Wire<B>, most: nat, measured: bool)
    requires sent.wire == w.wire + [m] && sent.slept == w.slept && sent.generated == w.generated && most >= 1
    ensures Shape(w, sent, m, most, false, measured)
  {
  }

  lemma ShapeOfCut<S, B>(w: World<S, B>, sent: World<S, B>, rested: World<S, B>, m: Wire<B>, delay: int, most: nat, measured: bool)
    requires sent.wire == w.wire + [m] && sent.slept == w.slept && sent.generated == w.generated && most >= 2
    requires rested.wire == sent.wire && rested.slept == w.slept + [delay] && rested.generated == w.generated
    requires measured ==> BASE <= delay <= CAP
    ensures Shape(w, rested, m, most, true, measured)
  {
  }

  lemma ShapeStep<S, B>(w: World<S, B>, rested: World<S, B>, after: World<S, B>, m: Wire<B>, delay: int, most: int, cut: bool, measured: bool)
    requires rested.wire == w.wire + [m] && rested.slept == w.slept + [delay] && rested.generated == w.generated
    requires Shape(rested, after, m, most, cut, measured)
    requires measured ==> BASE <= delay <= CAP
    ensures Shape(w, after, m, most + 1, cut, measured)
  {
    assert after.wire[|w.wire|..] == [m] + after.wire[|rested.wire|..];
    assert after.slept[|w.slept|..] == [delay] + after.slept[|rested.slept|..];
  }

  /** The messages of one call are copies of one message, at most retries + 1 of them; a
      sleep separates any two, and only a sleep that is cut short can come last. With up
      to 36 retries every sleep lies between 250 ms and 8 s. */
  lemma {:induction false} WireShape<S, B, P>(env: Env<S, B, P>, w: World<S, B>, m: Wire<B>, wantsOutput: bool, attempt: nat)
    requires attempt <= env.retries
    ensures var (r, after) := Attempts(env, w, m, wantsOutput, attempt);
      Shape(w, after, m, env.retries - attempt + 1, r.Err? && r.failure.SleepCut?, env.retries <= 36)
    decreases env.retries - attempt
  {
    hide RetryDelay, Replayable, Shape;
    var sent := Send(env, w, m);
    var verdict := Judge(Fate(env, w, m), attempt, env.retries, Replayable(m.verb, m.path), wantsOutput, env.outside);
    ShapeOfOne(w, sent, m, env.retries - attempt + 1, env.retries <= 36);
    if verdict.Again? {
      var rested := Sleep(env, sent, verdict.delay);
      if env.retries <= 36 {
        JudgedDelay(Fate(env, w, m), attempt, env.retries, Replayable(m.verb, m.path), wantsOutput, env.outside);
      }
      ShapeOfCut(w, sent, rested, m, verdict.delay, env.retries - attempt + 1, env.retries <= 36);
      if env.nap(|sent.slept|).None? {
        WireShape(env, rested, m, wantsOutput, attempt + 1);
        var (r, after) := Attempts(env, rested, m, wantsOutput, attempt + 1);
        ShapeStep(w, rested, after, m, verdict.delay, env.retries - attempt, r.Err? && r.failure.SleepCut?, env.retries <= 36);
      }
    }
  }

  lemma JudgedDelay<P>(o: Outcome<P>, attempt: nat, retries: nat, replay: bool, wantsOutput: bool, outside: int)
    requires retries <= 36 && Judge(o, attempt, retries, replay, wantsOutput, outside).Again?
    ensures BASE <= Judge(o, attempt, retries, replay, wantsOutput, outside).delay <= CAP
  {
    hide RetryDelay;
    DelayBounds(attempt, None, outside);
    if o.Arrived? && o.reply.Response? {
      DelayBounds(attempt, o.reply.header.trimmed, outside);
    }
  }

  /** What a success hands to the caller, as opposed to what it says. */
  function Handed<P>(reply: Reply<P>, wantsOutput: bool): Option<P>
    requires reply.Response?
  {
    if !wantsOutput || reply.status == 204 || !reply.body.Decoded? then None else Some(reply.body.payload)
  }

  /** `payload` is what the service answered to `m` in this state, as message `n`. */
  ghost predicate Answered<S, B, P>(env: Env<S, B, P>, n: nat, s: S, m: Wire<B>, wantsOutput: bool, payload: Option<P>) {
    var o := env.net(n, s, m);
    && o.Arrived? && o.reply.Response? && Success(o.reply.status)
    && payload == Handed(o.reply, wantsOutput)
  }

  lemma {:induction false} WireGrows<S, B, P>(env: Env<S, B, P>, w: World<S, B>, m: Wire<B>, wantsOutput: bool, attempt: nat)
    ensures |Attempts(env, w, m, wantsOutput, attempt).1.wire| > |w.wire|
    decreases env.retries - attempt
  {
    hide RetryDelay, Replayable, TakesEffect;
    var after := Send(env, w, m);
    var verdict := Judge(Fate(env, w, m), attempt, env.retries, Replayable(m.verb, m.path), wantsOutput, env.outside);
    if verdict.Again? && env.nap(|after.slept|).None? {
      WireGrows(env, Sleep(env, after, verdict.delay), m, wantsOutput, attempt + 1);
    }
  }

  /** What a successful call returns is an answer the service gave to that very message,
      once the call had begun. */
  lemma {:induction false} AnswerIsGenuine<S(!new), B(!new), P>(env: Env<S, B, P>, w: World<S, B>, m: Wire<B>, wantsOutput: bool, attempt: nat)
    ensures var (r, after) := Attempts(env, w, m, wantsOutput, attempt);
      r.Ok? ==> exists n, s :: |w.wire| <= n < |after.wire| && Answered(env, n, s, m, wantsOutput, r.payload)
    decreases env.retries - attempt
  {
    hide RetryDelay, Replayable;
    var after := Send(env, w, m);
    var verdict := Judge(Fate(env, w, m), attempt, env.retries, Replayable(m.verb, m.path), wantsOutput, env.outside);
    if verdict.Again? {
      if env.nap(|after.slept|).None? {
        AnswerIsGenuine(env, Sleep(env, after, verdict.delay), m, wantsOutput, attempt + 1);
        WireGrows(env, Sleep(env, after, verdict.delay), m, wantsOutput, attempt + 1);
      }
    } else if verdict.result.Ok? {
      assert Answered(env, |w.wire|, w.state, m, wantsOutput, verdict.result.payload);
    }
  }

  // ----------------------------------------------------------- keys over whole histories

  /** Several calls in a row. */
  function Calls<S, B, P>(env: Env<S, B, P>, w: World<S, B>, reqs: seq<Request<B>>): World<S, B> {
    if reqs == [] then w else Call(env, Calls(env, w, reqs[..|reqs| - 1]), reqs[|reqs| - 1]).1
  }

  /** The key generator never repeats itself and never yields an empty key. */
  ghost predicate FreshKeys<S, B, P>(env: Env<S, B, P>) {
    && (forall n: nat :: env.keygen(n) != Some(""))
    && (forall i: nat, j: nat :: i < j && env.keygen(i).Some? ==> env.keygen(i) != env.keygen(j))
  }

  lemma CallShape<S, B, P>(env: Env<S, B, P>, w: World<S, B>, req: Request<B>)
    ensures var (r, after) := Call(env, w, req);
      && w.wire <= after.wire && w.slept <= after.slept
      && |after.wire| - |w.wire| <= env.retries + 1
      && after.generated == w.generated + (if NeedsKey(req) then 1 else 0)
      && (after.wire != w.wire ==> KeyOf(env, w, req).Some?)
      && (after.wire != w.wire ==> Copies(after.wire[|w.wire|..], Message(req, KeyOf(env, w, req).value)))
  {
    if KeyOf(env, w, req).Some? && req.encodes && req.builds {
      WireShape(env, Keyed(w, req), Message(req, KeyOf(env, w, req).value), req.wantsOutput, 0);
    }
  }

  lemma {:induction false} GeneratedGrows<S, B, P>(env: Env<S, B, P>, w: World<S, B>, reqs: seq<Request<B>>, i: nat)
    requires i < |reqs| && NeedsKey(reqs[i])
    ensures Calls(env, w, reqs[..i]).generated < Calls(env, w, reqs).generated
  {
    var init := reqs[..|reqs| - 1];
    CallShape(env, Calls(env, w, init), reqs[|reqs| - 1]);
    if i < |reqs| - 1 {
      GeneratedGrows(env, w, init, i);
      assert init[..i] == reqs[..i];
    }
  }

  /** In any history of calls, two calls that were given no key never share one. */
  lemma KeysNeverShared<S, B, P>(env: Env<S, B, P>, w: World<S, B>, reqs: seq<Request<B>>, i: nat, j: nat)
    requires FreshKeys(env) && i < j < |reqs| && NeedsKey(reqs[i]) && NeedsKey(reqs[j])
    ensures var a, b := KeyOf(env, Calls(env, w, reqs[..i]), reqs[i]), KeyOf(env, Calls(env, w, reqs[..j]), reqs[j]);
      a != Some("") && (a.Some? ==> a != b)
  {
    GeneratedGrows(env, w, reqs[..j], i);
    assert reqs[..j][..i] == reqs[..i];
  }

  // ------------------------------------------------------------------ whole calls

  /** A request whose route gets a key, that brings one, or that is not replayed. */
  predicate Guarded<B>(req: Request<B>) {
    req.callerKey != "" || NeedsKey(req) || !Replayable(req.verb, req.path)
  }

  /** A whole call of a guarded request takes effect at most once; if it succeeds and its
      key is not one the service has seen before, exactly once. */
  lemma CallAtMostOnce<S(!new), B(!new), P>(env: Env<S, B, P>, w: World<S, B>, req: Request<B>)
    requires Honest(env) && FreshKeys(env) && Guarded(req)
    ensures var (r, after) := Call(env, w, req);
      match KeyOf(env, w, req)
      case None => Untouched(w, after) && r == Err(NoKey)
      case Some(key) =>
        && (Untouched(w, after) || Once(env, w, after, Message(req, key)))
        && (r.Ok? && (key == "" || key !in w.seen) ==> Once(env, w, after, Message(req, key)))
  {
    var key := KeyOf(env, w, req);
    if key.Some? && req.encodes && req.builds {
      AtMostOnce(env, Keyed(w, req), Message(req, key.value), req.wantsOutput, 0);
    }
  }

  // ------------------------------------------------- exactly once, over whole histories

  /** The only key an attempt can make known is its own. */
  lemma {:induction false} AttemptsSpend<S, B, P>(env: Env<S, B, P>, w: World<S, B>, m: Wire<B>, wantsOutput: bool, attempt: nat)
    ensures Attempts(env, w, m, wantsOutput, attempt).1.seen <= w.seen + {m.key}
    decreases env.retries - attempt
  {
    hide RetryDelay, Replayable;
    var after := Send(env, w, m);
    var verdict := Judge(Fate(env, w, m), attempt, env.retries, Replayable(m.verb, m.path), wantsOutput, env.outside);
    if verdict.Again? && env.nap(|after.slept|).None? {
      AttemptsSpend(env, Sleep(env, after, verdict.delay), m, wantsOutput, attempt + 1);
    }
  }

  lemma CallSpends<S, B, P>(env: Env<S, B, P>, w: World<S, B>, req: Request<B>)
    ensures Call(env, w, req).1.seen <= w.seen + match KeyOf(env, w, req) { case None => {} case Some(key) => {key} }
  {
    if KeyOf(env, w, req).Some? && req.encodes && req.builds {
      AttemptsSpend(env, Keyed(w, req), Message(req, KeyOf(env, w, req).value), req.wantsOutput, 0);
    }
  }

  /** Some request brings this key. */
  ghost predicate Brought<B>(reqs: seq<Request<B>>, key: string) {
    exists k :: 0 <= k < |reqs| && reqs[k].callerKey == key
  }

  /** Some of the keys generated from number `first` on, before number `next`, is this one. */
  ghost predicate Generated<S, B, P>(env: Env<S, B, P>, first: nat, next: nat, key: string) {
    exists n: nat :: first <= n < next && env.keygen(n) == Some(key)
  }

  /** A key the service knows after a history it knew before, or some request brought it, or
      it was generated on the way. */
  lemma {:induction false} WhereKeysComeFrom<S, B, P>(env: Env<S, B, P>, w: World<S, B>, reqs: seq<Request<B>>, key: string)
    ensures w.generated <= Calls(env, w, reqs).generated
    ensures key in Calls(env, w, reqs).seen ==>
      key in w.seen || Brought(reqs, key) || Generated(env, w.generated, Calls(env, w, reqs).generated, key)
  {
    hide Call, NeedsKey;
    if reqs != [] {
      var init, req := reqs[..|reqs| - 1], reqs[|reqs| - 1];
      var before := Calls(env, w, init);
      WhereKeysComeFrom(env, w, init, key);
      CallShape(env, before, req);
      CallSpends(env, before, req);
      assert reqs == init + [req];
    }
  }

  /** No key the client may still generate is known to the service or brought by a request. */
  ghost predicate KeysApart<S, B, P>(env: Env<S, B, P>, w: World<S, B>, reqs: seq<Request<B>>) {
    forall n: nat :: n >= w.generated && env.keygen(n).Some? ==>
      env.keygen(n).value !in w.seen && !Brought(reqs, env.keygen(n).value)
  }

  /** Request `i` gets a key of its own, or brings one that is new. */
  ghost predicate NewKey<S, B>(w: World<S, B>, reqs: seq<Request<B>>, i: nat)
    requires i < |reqs|
  {
    var key := reqs[i].callerKey;
    NeedsKey(reqs[i]) || (key != "" && key !in w.seen && !Brought(reqs[..i], key))
  }

  /** The call under this key is confirmed only by having been carried out, once. */
  ghost predicate OnceIfOk<S, B, P>(env: Env<S, B, P>, w: World<S, B>, req: Request<B>) {
    var (r, after) := Call(env, w, req);
    var key := KeyOf(env, w, req);
    r.Ok? ==> key.Some? && key.value != "" && Once(env, w, after, Message(req, key.value))
  }

  /** Anywhere in a history, the key of a request with a new key is unknown to the service. */
  lemma NewKeyIsUnseen<S, B, P>(env: Env<S, B, P>, w: World<S, B>, reqs: seq<Request<B>>, i: nat)
    requires FreshKeys(env) && KeysApart(env, w, reqs) && i < |reqs| && NewKey(w, reqs, i)
    ensures var before := Calls(env, w, reqs[..i]);
      var key := KeyOf(env, before, reqs[i]);
      key.Some? ==> key.value != "" && key.value !in before.seen
  {
    hide Call, Calls;
    var before := Calls(env, w, reqs[..i]);
    var key := KeyOf(env, before, reqs[i]);
    if key.Some? {
      WhereKeysComeFrom(env, w, reqs[..i], key.value);
      assert forall k :: 0 <= k < i ==> reqs[..i][k] == reqs[k];
    }
  }

  /** Anywhere in a history, a request with a new key that succeeds was carried out exactly
      once; nothing is assumed about which keys the service has seen meanwhile. */
  lemma NewKeysRunOnce<S(!new), B(!new), P>(env: Env<S, B, P>, w: World<S, B>, reqs: seq<Request<B>>, i: nat)
    requires Honest(env) && FreshKeys(env) && KeysApart(env, w, reqs) && i < |reqs| && NewKey(w, reqs, i)
    ensures OnceIfOk(env, Calls(env, w, reqs[..i]), reqs[i])
  {
    hide Call, Calls;
    NewKeyIsUnseen(env, w, reqs, i);
    CallAtMostOnce(env, Calls(env, w, reqs[..i]), reqs[i]);
  }

  /** Every POST on a sandbox's own route but resume takes effect at most once, whatever
      the network does and although the caller brings no key. */
  lemma SandboxPostAtMostOnce<S(!new), B(!new), P>(env: Env<S, B, P>, w: World<S, B>, req: Request<B>, id: string, suffix: string)
    requires Honest(env) && FreshKeys(env)
    requires Escaped(id) && "/" <= suffix && !Names(suffix, "resume")
    requires req.verb == "POST" && req.path == SandboxPath(id, suffix) && req.callerKey == ""
    ensures var (r, after) := Call(env, w, req);
      && (Untouched(w, after) || after.state == env.apply(w.state, Message(req, KeyOf(env, w, req).GetOr(""))))
      && (KeyOf(env, w, req).Some? && KeyOf(env, w, req).value != "" <==> NamesKeyed(suffix) && env.keygen(w.generated).Some?)
  {
    SandboxPostClassified(id, suffix);
    CallAtMostOnce(env, w, req);
  }

  /** A whole call of an idempotent operation without any key ends as if sent zero times
      or once, and exactly as if sent once if it succeeds. */
  lemma KeylessCallOfIdempotent<S(!new), B(!new), P>(env: Env<S, B, P>, w: World<S, B>, req: Request<B>)
    requires Honest(env) && req.callerKey == "" && !NeedsKey(req) && Idempotent(env, Message(req, ""))
    ensures var (r, after) := Call(env, w, req);
      && (after.state == w.state || after.state == env.apply(w.state, Message(req, "")))
      && (r.Ok? ==> after.state == env.apply(w.state, Message(req, "")))
  {
    if req.encodes && req.builds {
      IdempotentReplay(env, w, Message(req, ""), req.wantsOutput, 0);
    }
  }

  /** The two operations that are replayed without a key: getting or creating a sandbox,
      and resuming one. */
  lemma ReplayedWithoutKey<B>(req: Request<B>, id: string, query: string)
    requires Escaped(id) && req.callerKey == "" && (query == "" || "?" <= query)
    ensures req.verb == "PUT" && req.path == SANDBOXES + query ==> Replayable(req.verb, req.path) && !Guarded(req)
    ensures req.verb == "POST" && req.path == SandboxPath(id, "/resume" + query) ==> Replayable(req.verb, req.path) && !Guarded(req)
  {
    hide Names, NamesKeyed, SandboxPath, EndsAt;
    QueryIsCut(SANDBOXES, query);
    SandboxPostClassified(id, "/resume" + query);
    ResumeIsNamed(query);
  }

  lemma ResumeIsNamed(query: string)
    requires query == "" || "?" <= query
    ensures "/" <= "/resume" + query && Names("/resume" + query, "resume") && !NamesKeyed("/resume" + query)
  {
    var suffix := "/resume" + query;
    assert suffix[..7] == "/resume" && suffix[1] == 'r';
    assert "/fork"[1] == 'f' && "/snapshots"[1] == 's' && "/previews"[1] == 'p' && "/fanout"[1] == 'f';
  }
}
