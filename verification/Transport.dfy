/** One logical request: the retry loop around an unreliable network.

    The environment is an oracle: what happens to the n-th message, how the clock moves,
    which sleeps are cut short. Every statement is made for all environments; `Honest`
    says the little that is assumed of the service. */
module Transport {
  import opened Text
  import opened Routes
  import opened Backoff

  // ------------------------------------------------------------ the environment

  /** Why an operation failed: on its own, or because its context ended. */
  datatype Cause = Plain | Canceled | DeadlineExceeded

  /** A Retry-After header as a number: trimmed first, and as it stands. */
  datatype Header = Header(trimmed: Option<real>, verbatim: Option<real>)

  datatype Content<P> = Empty | Garbled | Decoded(payload: P)

  datatype Reply<P> =
    | Lost(cause: Cause)                       // the answer never comes
    | Torn(cause: Cause)                       // the body cannot be read to its end
    | Response(status: int, code: string, retryAfterSeconds: real, header: Header, body: Content<P>)

  /** What becomes of one message. `executes` says that the service carries the operation
      out, unless it recognises the key as one already carried out. */
  datatype Outcome<P> = Dropped(cause: Cause) | Arrived(executes: bool, reply: Reply<P>)

  /** A message as it goes over the wire. */
  datatype Wire<B> = Wire(verb: string, path: string, body: B, key: string)

  datatype Env<!S, !B, !P> = Env(
    retries: nat,                              // additional attempts the client may make
    net: (nat, S, Wire<B>) -> Outcome<P>,      // the fate of the n-th message
    apply: (S, Wire<B>) -> S,                  // what carrying a message out does
    keygen: nat -> Option<string>,             // the n-th generated key, or a failure
    nap: nat -> Option<Cause>,                 // the n-th sleep is cut short
    latency: nat -> int,                       // time taken by the n-th message
    slumber: (nat, int) -> int,                // time taken by the n-th sleep
    ended: nat -> bool,                        // the context has ended, n messages sent
    outside: int                               // the platform's out-of-range conversion
  )

  datatype World<S, B> = World(
    state: S,                // what the service holds
    seen: set<string>,       // keys it has carried out
    wire: seq<Wire<B>>,      // messages sent
    slept: seq<int>,         // delays asked for
    generated: nat,          // keys generated
    now: int
  )

  // ----------------------------------------------------------------- the request

  datatype Request<B> = Request(
    verb: string, path: string, body: B, callerKey: string,
    encodes: bool,           // the body can be marshalled
    builds: bool,            // method and URL make a request
    wantsOutput: bool        // the caller passes somewhere to decode into
  )

  datatype Failure =
    | NoKey | NotEncodable | NotBuildable
    | TransportFailed(cause: Cause) | ReadFailed(cause: Cause) | SleepCut(cause: Cause) | NotDecodable
    | ApiFailed(status: int, code: string, retryAfterSeconds: real)

  datatype Result<P> = Ok(payload: Option<P>) | Err(failure: Failure)

  predicate RetryableStatus(status: int) {
    status == 429 || status == 500 || status == 502 || status == 503 || status == 504
  }

  predicate Retryable(status: int, code: string) {
    RetryableStatus(status) || code == "idempotency_key_in_flight" || code == "reattach_in_flight"
  }

  predicate Success(status: int) {
    200 <= status < 300
  }

  // ------------------------------------------------------- one attempt, as a value

  /** What the loop does after an attempt. */
  datatype Verdict<P> = Stop(result: Result<P>) | Again(delay: int)

  function Judge<P>(o: Outcome<P>, attempt: nat, retries: nat, replay: bool, wantsOutput: bool, outside: int): Verdict<P> {
    var more := attempt < retries;
    match o
    case Dropped(c) => if more && replay then Again(RetryDelay(attempt, None, outside)) else Stop(Err(TransportFailed(c)))
    case Arrived(_, Lost(c)) => if more && replay then Again(RetryDelay(attempt, None, outside)) else Stop(Err(TransportFailed(c)))
    case Arrived(_, Torn(c)) => if more && replay then Again(RetryDelay(attempt, None, outside)) else Stop(Err(ReadFailed(c)))
    case Arrived(_, Response(status, code, seconds, header, body)) =>
      if !Success(status) then
        if more && (status == 429 || (replay && Retryable(status, code))) then Again(RetryDelay(attempt, header.trimmed, outside))
        else Stop(Err(ApiFailed(status, code, if seconds == 0.0 && header.verbatim.Some? then header.verbatim.value else seconds)))
      else if !wantsOutput || body.Empty? || status == 204 then Stop(Ok(None))
      else if body.Garbled? then Stop(Err(NotDecodable))
      else Stop(Ok(Some(body.payload)))
  }

  function Fate<S, B, P>(env: Env<S, B, P>, w: World<S, B>, m: Wire<B>): Outcome<P> {
    env.net(|w.wire|, w.state, m)
  }

  /** A message takes effect: it arrives, is carried out, and is not a known duplicate. */
  predicate TakesEffect<S, B, P>(env: Env<S, B, P>, w: World<S, B>, m: Wire<B>) {
    var o := Fate(env, w, m);
    o.Arrived? && o.executes && !(m.key != "" && m.key in w.seen)
  }

  function Send<S, B, P>(env: Env<S, B, P>, w: World<S, B>, m: Wire<B>): World<S, B> {
    var sent := w.(wire := w.wire + [m], now := w.now + env.latency(|w.wire|));
    if TakesEffect(env, w, m) then
      sent.(state := env.apply(w.state, m), seen := if m.key == "" then w.seen else w.seen + {m.key})
    else sent
  }

  function Sleep<S, B, P>(env: Env<S, B, P>, w: World<S, B>, delay: int): World<S, B> {
    w.(slept := w.slept + [delay], now := w.now + env.slumber(|w.slept|, delay))
  }

  /** The attempts still to be made, from number `attempt` on. */
  function Attempts<S, B, P>(env: Env<S, B, P>, w: World<S, B>, m: Wire<B>, wantsOutput: bool, attempt: nat): (Result<P>, World<S, B>)
    decreases env.retries - attempt
  {
    var after := Send(env, w, m);
    match Judge(Fate(env, w, m), attempt, env.retries, Replayable(m.verb, m.path), wantsOutput, env.outside)
    case Stop(r) => (r, after)
    case Again(delay) =>
      var rested := Sleep(env, after, delay);
      match env.nap(|after.slept|)
      case Some(c) => (Err(SleepCut(c)), rested)
      case None => Attempts(env, rested, m, wantsOutput, attempt + 1)
  }

  predicate NeedsKey<B>(req: Request<B>) {
    req.callerKey == "" && req.verb == "POST" && ReplayablePattern(req.path)
  }

  /** The key every attempt carries, unless generating it fails. */
  function KeyOf<S, B, P>(env: Env<S, B, P>, w: World<S, B>, req: Request<B>): Option<string> {
    if NeedsKey(req) then env.keygen(w.generated) else Some(req.callerKey)
  }

  function Message<B>(req: Request<B>, key: string): Wire<B> {
    Wire(req.verb, req.path, req.body, key)
  }

  /** The world once the key is chosen. */
  function Keyed<S, B>(w: World<S, B>, req: Request<B>): World<S, B> {
    if NeedsKey(req) then w.(generated := w.generated + 1) else w
  }

  /** A whole call. */
  function Call<S, B, P>(env: Env<S, B, P>, w: World<S, B>, req: Request<B>): (Result<P>, World<S, B>) {
    match KeyOf(env, w, req)
    case None => (Err(NoKey), Keyed(w, req))
    case Some(key) =>
      if !req.encodes then (Err(NotEncodable), Keyed(w, req))
      else if !req.builds then (Err(NotBuildable), Keyed(w, req))
      else Attempts(env, Keyed(w, req), Message(req, key), req.wantsOutput, 0)
  }

  /** The retry loop. */
  method RequestInto<S, B, P>(env: Env<S, B, P>, w0: World<S, B>, req: Request<B>) returns (r: Result<P>, w: World<S, B>)
    ensures (r, w) == Call(env, w0, req)
  {
    w := w0;
    var replay := Replayable(req.verb, req.path);
    var key := req.callerKey;
    if key == "" && req.verb == "POST" && ReplayablePattern(req.path) {
      var generated := env.keygen(w.generated);
      w := w.(generated := w.generated + 1);
      if generated == None {
        return Err(NoKey), w;
      }
      key := generated.value;
    }
    if !req.encodes {
      return Err(NotEncodable), w;
    }
    var attempt: nat := 0;
    var m := Wire(req.verb, req.path, req.body, key);
    while true
      invariant attempt <= env.retries
      invariant req.builds ==> Call(env, w0, req) == Attempts(env, w, m, req.wantsOutput, attempt)
      invariant !req.builds ==> w == Keyed(w0, req)
      decreases env.retries - attempt
    {
      if !req.builds {
        return Err(NotBuildable), w;
      }
      var outcome := env.net(|w.wire|, w.state, m);
      w := Send(env, w, m);
      var delay: int;
      if outcome.Dropped? || outcome.reply.Lost? {
        var cause := if outcome.Dropped? then outcome.cause else outcome.reply.cause;
        if attempt >= env.retries || !replay {
          return Err(TransportFailed(cause)), w;
        }
        delay := RetryDelay(attempt, None, env.outside);
      } else if outcome.reply.Torn? {
        if attempt >= env.retries || !replay {
          return Err(ReadFailed(outcome.reply.cause)), w;
        }
        delay := RetryDelay(attempt, None, env.outside);
      } else {
        var response := outcome.reply;
        if response.status < 200 || response.status >= 300 {
          var canRetry := attempt < env.retries &&
                          (response.status == 429 || (replay && Retryable(response.status, response.code)));
          if !canRetry {
            var seconds := response.retryAfterSeconds;
            if seconds == 0.0 && response.header.verbatim.Some? {
              seconds := response.header.verbatim.value;
            }
            return Err(ApiFailed(response.status, response.code, seconds)), w;
          }
          delay := RetryDelay(attempt, response.header.trimmed, env.outside);
        } else {
          if !req.wantsOutput || response.body.Empty? || response.status == 204 {
            return Ok(None), w;
          }
          if response.body.Garbled? {
            return Err(NotDecodable), w;
          }
          return Ok(Some(response.body.payload)), w;
        }
      }
      var cut := env.nap(|w.slept|);
      w := Sleep(env, w, delay);
      if cut.Some? {
        return Err(SleepCut(cut.value)), w;
      }
      attempt := attempt + 1;
    }
  }
}
