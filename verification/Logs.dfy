/** Following a process: a handle remembers how far it has read each output stream. */
module Logs {
  import opened Text
  import opened Routes
  import opened Transport
  import opened Delivery
  import opened Retries

  datatype Page = Page(stdout: string, stderr: string, nextStdout: int, nextStderr: int, state: string)

  datatype Termination = Termination(oomKilled: bool)

  datatype Info = Info(exitCode: Option<int>, termination: Option<Termination>)

  datatype Answer = Logged(page: Page) | Described(info: Info)

  /** What a decoded answer leaves in the caller's structure; nothing decoded is zero. */
  function AsPage(a: Option<Answer>): Page {
    if a.Some? && a.value.Logged? then a.value.page else Page("", "", 0, 0, "")
  }

  function AsInfo(a: Option<Answer>): Info {
    if a.Some? && a.value.Described? then a.value.info else Info(None, None)
  }

  // ------------------------------------------------------------------- the question

  function Digits(n: nat): string {
    (if n < 10 then "" else Digits(n / 10)) + [('0' as int + n % 10) as char]
  }

  /** strconv.Itoa. */
  function Itoa(n: int): string {
    if n < 0 then "-" + Digits(-n) else Digits(n)
  }

  const MIDDLE := "&stderr_offset="

  function LogsPath(sandbox: string, process: string, stdoutOffset: int, stderrOffset: int): string {
    SandboxPath(sandbox, "/processes/" + process + "/logs?stdout_offset=" + Itoa(stdoutOffset) + MIDDLE + Itoa(stderrOffset))
  }

  /** The path asks for the two offsets by their names. */
  lemma LogsPathIs(sandbox: string, process: string, a: int, b: int)
    ensures LogsPath(sandbox, process, a, b) ==
      "/v1/sandboxes/" + sandbox + "/processes/" + process + "/logs?stdout_offset=" + Itoa(a) + "&stderr_offset=" + Itoa(b)
  {
    hide Itoa;
    assert SANDBOXES + "/" == "/v1/sandboxes/";
    Flat("/v1/sandboxes/" + sandbox, "/processes/", process, "/logs?stdout_offset=", Itoa(a), MIDDLE, Itoa(b));
  }

  lemma Flat(front: string, a: string, b: string, c: string, d: string, e: string, f: string)
    ensures front + (a + b + c + d + e + f) == front + a + b + c + d + e + f
  {
    assert front + (a + b) == front + a + b;
    assert front + (a + b + c) == front + (a + b) + c;
    assert front + (a + b + c + d) == front + (a + b + c) + d;
    assert front + (a + b + c + d + e) == front + (a + b + c + d) + e;
  }

  function Get(path: string): Request<()> {
    Request("GET", path, (), "", true, true, true)
  }

  // ---------------------------------------------------------------------- the service

  /** Everything the process will ever write. The service only ever appends to what it
      holds, so at any time it holds a prefix of this. */
  datatype Output = Output(stdout: string, stderr: string)

  predicate SliceOf(full: string, from: int, text: string, next: int) {
    0 <= from <= next <= |full| && text == full[from..next]
  }

  ghost predicate HonestPage(o: Outcome<Answer>, full: Output, a: int, b: int) {
    o.Arrived? && o.reply.Response? && Success(o.reply.status) ==>
      && o.reply.status != 204 && o.reply.body.Decoded? && o.reply.body.payload.Logged?
      && SliceOf(full.stdout, a, o.reply.body.payload.page.stdout, o.reply.body.payload.page.nextStdout)
      && SliceOf(full.stderr, b, o.reply.body.payload.page.stderr, o.reply.body.payload.page.nextStderr)
  }

  /** Asked for the output from two offsets, the service answers with the output from
      there to two new offsets, or not at all. */
  ghost predicate LogService<S(!new)>(env: Env<S, (), Answer>, sandbox: string, process: string, full: Output) {
    forall n: nat, s: S, m: Wire<()>, a: int, b: int ::
      m.verb == "GET" && m.path == LogsPath(sandbox, process, a, b) && 0 <= a <= |full.stdout| && 0 <= b <= |full.stderr| ==>
        HonestPage(env.net(n, s, m), full, a, b)
  }

  /** A page that says the process is finished reaches the end of the output. */
  ghost predicate FinishesAtTheEnd<S(!new)>(env: Env<S, (), Answer>, sandbox: string, process: string, full: Output) {
    forall n: nat, s: S, m: Wire<()>, a: int, b: int ::
      m.verb == "GET" && m.path == LogsPath(sandbox, process, a, b) ==> LastPage(env.net(n, s, m), full)
  }

  ghost predicate LastPage(o: Outcome<Answer>, full: Output) {
    o.Arrived? && o.reply.Response? && o.reply.body.Decoded? && o.reply.body.payload.Logged? ==>
      var page := o.reply.body.payload.page;
      page.state == "finished" ==> page.nextStdout == |full.stdout| && page.nextStderr == |full.stderr|
  }

  /** The page behind a successful call is an honest one, whatever was retried. */
  lemma PageIsHonest<S(!new)>(env: Env<S, (), Answer>, w: World<S, ()>, sandbox: string, process: string, full: Output, a: int, b: int)
    requires LogService(env, sandbox, process, full)
    requires 0 <= a <= |full.stdout| && 0 <= b <= |full.stderr|
    ensures var r := Call(env, w, Get(LogsPath(sandbox, process, a, b))).0;
      r.Ok? ==>
        var page := AsPage(r.payload);
        && SliceOf(full.stdout, a, page.stdout, page.nextStdout)
        && SliceOf(full.stderr, b, page.stderr, page.nextStderr)
        && (FinishesAtTheEnd(env, sandbox, process, full) && page.state == "finished" ==>
             page.nextStdout == |full.stdout| && page.nextStderr == |full.stderr|)
  {
    hide LogsPath, Attempts;
    var path := LogsPath(sandbox, process, a, b);
    var m: Wire<()> := Wire("GET", path, (), "");
    AnswerIsGenuine(env, w, m, true, 0);
    var r := Attempts(env, w, m, true, 0).0;
    if r.Ok? {
      var n, s :| Answered(env, n, s, m, true, r.payload);
      assert HonestPage(env.net(n, s, m), full, a, b);
      if FinishesAtTheEnd(env, sandbox, process, full) {
        assert LastPage(env.net(n, s, m), full);
      }
    }
  }

  // ------------------------------------------------------------------- when Wait returns

  const POLL := 100 * Backoff.MILLISECOND

  /** A handle at these offsets polls at most `polls` times before a call fails, a page says
      the process is finished, or a sleep is cut short. */
  ghost predicate Settles<S>(env: Env<S, (), Answer>, w: World<S, ()>, sandbox: string, process: string, a: int, b: int, polls: nat)
    decreases polls
  {
    polls > 0 &&
    var (r, after) := Call(env, w, Get(LogsPath(sandbox, process, a, b)));
    var page := if r.Ok? then AsPage(r.payload) else AsPage(None);
    || r.Err? || page.state == "finished" || env.nap(|after.slept|).Some?
    || Settles(env, Sleep(env, after, POLL), sandbox, process, page.nextStdout, page.nextStderr, polls - 1)
  }

  /** Waiting from here returns, after however many polls. */
  ghost predicate Returns<S>(env: Env<S, (), Answer>, w: World<S, ()>, sandbox: string, process: string, a: int, b: int) {
    exists polls: nat :: Settles(env, w, sandbox, process, a, b, polls)
  }

  /** From sleep number `horizon` on, every sleep is cut short. */
  ghost predicate ContextEnds<S>(env: Env<S, (), Answer>, horizon: nat) {
    forall n: nat :: n >= horizon ==> env.nap(n).Some?
  }

  ghost predicate SaysFinished(o: Outcome<Answer>) {
    o.Arrived? && o.reply.Response? && Success(o.reply.status) ==>
      && o.reply.status != 204 && o.reply.body.Decoded? && o.reply.body.payload.Logged?
      && o.reply.body.payload.page.state == "finished"
  }

  /** From message number `horizon` on, every page says that the process is finished. */
  ghost predicate ProcessEnds<S(!new)>(env: Env<S, (), Answer>, sandbox: string, process: string, horizon: nat) {
    forall n: nat, s: S, m: Wire<()>, a: int, b: int ::
      n >= horizon && m.verb == "GET" && m.path == LogsPath(sandbox, process, a, b) ==> SaysFinished(env.net(n, s, m))
  }

  /** A wait whose context ends returns, whatever the service does. */
  lemma {:induction false} EndingContextReturns<S>(env: Env<S, (), Answer>, w: World<S, ()>, sandbox: string, process: string, a: int, b: int, horizon: nat)
    requires ContextEnds(env, horizon)
    ensures Returns(env, w, sandbox, process, a, b)
    decreases horizon - |w.slept|
  {
    hide LogsPath, Call;
    var m := Get(LogsPath(sandbox, process, a, b));
    CallShape(env, w, m);
    var (r, after) := Call(env, w, m);
    if r.Ok? && AsPage(r.payload).state != "finished" && env.nap(|after.slept|).None? {
      var page := AsPage(r.payload);
      var rested := Sleep(env, after, POLL);
      EndingContextReturns(env, rested, sandbox, process, page.nextStdout, page.nextStderr, horizon);
      var polls: nat :| Settles(env, rested, sandbox, process, page.nextStdout, page.nextStderr, polls);
      assert Settles(env, w, sandbox, process, a, b, polls + 1);
    } else {
      assert Settles(env, w, sandbox, process, a, b, 1);
    }
  }

  /** A call for a page sends a message, and a late one that succeeds says "finished". */
  lemma LatePage<S(!new)>(env: Env<S, (), Answer>, w: World<S, ()>, sandbox: string, process: string, a: int, b: int, horizon: nat)
    requires ProcessEnds(env, sandbox, process, horizon)
    ensures var (r, after) := Call(env, w, Get(LogsPath(sandbox, process, a, b)));
      && |after.wire| > |w.wire|
      && (r.Ok? && |w.wire| >= horizon ==> AsPage(r.payload).state == "finished")
  {
    hide LogsPath, Attempts;
    var path := LogsPath(sandbox, process, a, b);
    var m: Wire<()> := Wire("GET", path, (), "");
    WireShape(env, w, m, true, 0);
    AnswerIsGenuine(env, w, m, true, 0);
    var r := Attempts(env, w, m, true, 0).0;
    if r.Ok? && |w.wire| >= horizon {
      var n, s :| n >= |w.wire| && Answered(env, n, s, m, true, r.payload);
      assert SaysFinished(env.net(n, s, m));
    }
  }

  /** A wait for a process that ends returns, even if the context never does. */
  lemma {:induction false} EndingProcessReturns<S(!new)>(env: Env<S, (), Answer>, w: World<S, ()>, sandbox: string, process: string, a: int, b: int, horizon: nat)
    requires ProcessEnds(env, sandbox, process, horizon)
    ensures Returns(env, w, sandbox, process, a, b)
    decreases horizon - |w.wire|
  {
    hide LogsPath, Call, ProcessEnds;
    LatePage(env, w, sandbox, process, a, b, horizon);
    var (r, after) := Call(env, w, Get(LogsPath(sandbox, process, a, b)));
    if r.Ok? && AsPage(r.payload).state != "finished" && env.nap(|after.slept|).None? {
      var page := AsPage(r.payload);
      var rested := Sleep(env, after, POLL);
      EndingProcessReturns(env, rested, sandbox, process, page.nextStdout, page.nextStderr, horizon);
      var polls: nat :| Settles(env, rested, sandbox, process, page.nextStdout, page.nextStderr, polls);
      assert Settles(env, w, sandbox, process, a, b, polls + 1);
    } else {
      assert Settles(env, w, sandbox, process, a, b, 1);
    }
  }

  // ---------------------------------------------------------------- what Wait reports

  function InfoPath(sandbox: string, process: string): string {
    SandboxPath(sandbox, "/processes/" + process)
  }

  /** The service answered a GET of `path` with `answer`, as message `n`. */
  ghost predicate Told<S(!new)>(env: Env<S, (), Answer>, n: nat, path: string, answer: Option<Answer>) {
    exists s :: Answered(env, n, s, Wire("GET", path, (), ""), true, answer)
  }

  /** The exit code the service told, or 0 if it told none. */
  ghost predicate IsExitCode(answer: Option<Answer>, exitCode: int) {
    match answer
    case Some(Described(Info(Some(told), _))) => exitCode == told
    case _ => exitCode == 0
  }

  ghost predicate IsTermination(answer: Option<Answer>, termination: Option<Termination>) {
    match answer
    case Some(Described(Info(_, told))) => termination == told
    case _ => termination.None?
  }

  /** Among the messages from `w0` to `w`, the service first answered with a page of the
      output that says "finished", and later with this end of the process. */
  ghost predicate EndReported<S(!new)>(env: Env<S, (), Answer>, w0: World<S, ()>, w: World<S, ()>, sandbox: string, process: string,
                                 exitCode: int, termination: Option<Termination>) {
    exists i: nat, n: nat, a: int, b: int, page: Page, answer: Option<Answer> ::
      && |w0.wire| <= i < n < |w.wire|
      && Told(env, i, LogsPath(sandbox, process, a, b), Some(Logged(page))) && page.state == "finished"
      && Told(env, n, "/v1/sandboxes/" + sandbox + "/processes/" + process, answer)
      && IsExitCode(answer, exitCode) && IsTermination(answer, termination)
  }

  /** The run up to `w` ended in this failure, on the path of some page or on that of the
      end of the process. */
  ghost predicate WaitFailure<S(!new)>(env: Env<S, (), Answer>, w: World<S, ()>, sandbox: string, process: string, failure: Failure) {
    || EndedIn(env, w, Wire("GET", "/v1/sandboxes/" + sandbox + "/processes/" + process, (), ""), true, failure)
    || exists a, b :: EndedIn(env, w, Wire("GET", LogsPath(sandbox, process, a, b), (), ""), true, failure)
  }

  lemma CutIsMet<S(!new)>(env: Env<S, (), Answer>, w: World<S, ()>, path: string, failure: Failure)
    requires RestCut(env, w, failure)
    ensures EndedIn(env, w, Wire("GET", path, (), ""), true, failure)
  {
  }

  lemma GetFailure<S(!new)>(env: Env<S, (), Answer>, w: World<S, ()>, path: string)
    ensures var (r, after) := Call(env, w, Get(path));
      r.Err? ==> EndedIn(env, after, Wire("GET", path, (), ""), true, r.failure)
  {
    hide Attempts, EndedIn;
    FailureIsMet(env, w, Wire("GET", path, (), ""), true);
  }

  lemma PathIsInfo(sandbox: string, process: string)
    ensures InfoPath(sandbox, process) == "/v1/sandboxes/" + sandbox + "/processes/" + process
  {
    assert SANDBOXES + "/" == "/v1/sandboxes/";
  }

  lemma GetIsTold<S(!new)>(env: Env<S, (), Answer>, w: World<S, ()>, path: string)
    ensures var (r, after) := Call(env, w, Get(path));
      r.Ok? ==> exists n :: |w.wire| <= n < |after.wire| && Told(env, n, path, r.payload)
  {
    hide Attempts;
    var m: Wire<()> := Wire("GET", path, (), "");
    AnswerIsGenuine(env, w, m, true, 0);
    var (r, after) := Attempts(env, w, m, true, 0);
    if r.Ok? {
      var n, s :| |w.wire| <= n < |after.wire| && Answered(env, n, s, m, true, r.payload);
      assert Told(env, n, path, r.payload);
    }
  }

  lemma EndIsReported<S(!new)>(env: Env<S, (), Answer>, w0: World<S, ()>, before: World<S, ()>, sandbox: string, process: string, a: int, b: int)
    requires |w0.wire| <= |before.wire|
    requires var (logged, w) := Call(env, before, Get(LogsPath(sandbox, process, a, b)));
      && logged.Ok? && AsPage(logged.payload).state == "finished"
      && Call(env, w, Get(InfoPath(sandbox, process))).0.Ok?
    ensures var w := Call(env, before, Get(LogsPath(sandbox, process, a, b))).1;
      var (described, after) := Call(env, w, Get(InfoPath(sandbox, process)));
      var info := AsInfo(described.payload);
      EndReported(env, w0, after, sandbox, process, info.exitCode.GetOr(0), info.termination)
  {
    hide Call, LogsPath, InfoPath, Told;
    GetIsTold(env, before, LogsPath(sandbox, process, a, b));
    var (logged, w) := Call(env, before, Get(LogsPath(sandbox, process, a, b)));
    var i :| |before.wire| <= i < |w.wire| && Told(env, i, LogsPath(sandbox, process, a, b), logged.payload);
    GetIsTold(env, w, InfoPath(sandbox, process));
    var (described, after) := Call(env, w, Get(InfoPath(sandbox, process)));
    var n :| |w.wire| <= n < |after.wire| && Told(env, n, InfoPath(sandbox, process), described.payload);
    PathIsInfo(sandbox, process);
    assert logged.payload == Some(Logged(AsPage(logged.payload)));
  }

  // ------------------------------------------------------------------------ the handle

  datatype WaitResult =
    | Finished(stdout: string, stderr: string, exitCode: int, success: bool, reason: string, termination: Option<Termination>)
    | WaitFailed(failure: Failure)

  class Process {
    const sandbox: string
    const id: string
    var stdoutOffset: int
    var stderrOffset: int
    ghost var stdout: string    // all text handed out by Logs so far
    ghost var stderr: string

    constructor (sandbox: string, id: string)
      ensures this.sandbox == sandbox && this.id == id
      ensures forall full :: Follows(full)
    {
      this.sandbox, this.id := sandbox, id;
      stdoutOffset, stderrOffset := 0, 0;
      stdout, stderr := "", "";
    }

    /** All that was handed out is the output up to the offsets: no gap, no repeat. */
    ghost predicate Follows(full: Output)
      reads this
    {
      && SliceOf(full.stdout, 0, stdout, stdoutOffset)
      && SliceOf(full.stderr, 0, stderr, stderrOffset)
    }

    method Logs<S(!new)>(env: Env<S, (), Answer>, w0: World<S, ()>, ghost full: Output) returns (r: Result<Answer>, page: Page, w: World<S, ()>)
      modifies this
      ensures (r, w) == Call(env, w0, Get(LogsPath(sandbox, id, old(stdoutOffset), old(stderrOffset))))
      // a failed call leaves the handle as it was
      ensures r.Err? ==> stdoutOffset == old(stdoutOffset) && stderrOffset == old(stderrOffset)
                         && stdout == old(stdout) && stderr == old(stderr)
      // a successful one moves it to where the answer says
      ensures r.Ok? ==> page == AsPage(r.payload) && stdoutOffset == page.nextStdout && stderrOffset == page.nextStderr
                        && stdout == old(stdout) + page.stdout && stderr == old(stderr) + page.stderr
      // and with a service that answers honestly, the handle keeps following
      ensures LogService(env, sandbox, id, full) && old(Follows(full)) ==> Follows(full)
      ensures LogService(env, sandbox, id, full) && old(Follows(full)) && r.Ok? ==>
                && SliceOf(full.stdout, old(stdoutOffset), page.stdout, stdoutOffset)
                && SliceOf(full.stderr, old(stderrOffset), page.stderr, stderrOffset)
                && (FinishesAtTheEnd(env, sandbox, id, full) && page.state == "finished" ==>
                     stdoutOffset == |full.stdout| && stderrOffset == |full.stderr|)
    {
      hide LogsPath;
      r, w := RequestInto(env, w0, Get(LogsPath(sandbox, id, stdoutOffset, stderrOffset)));
      if LogService(env, sandbox, id, full) && Follows(full) {
        PageIsHonest(env, w0, sandbox, id, full, stdoutOffset, stderrOffset);
      }
      page := AsPage(None);
      if r.Ok? {
        page := AsPage(r.payload);
        stdoutOffset, stderrOffset := page.nextStdout, page.nextStderr;
        stdout, stderr := stdout + page.stdout, stderr + page.stderr;
      }
    }

    /** Polls until the process is finished, then reports how it ended. It is called where
        it returns at all: where some poll fails, is cut short or finds the process finished. */
    method Wait<S(!new)>(env: Env<S, (), Answer>, w0: World<S, ()>, ghost full: Output)
      returns (r: WaitResult, w: World<S, ()>)
      requires Returns(env, w0, sandbox, id, stdoutOffset, stderrOffset)
      modifies this
      // how it ended is what the service said, once it had said that the process is finished
      ensures r.Finished? ==> EndReported(env, w0, w, sandbox, id, r.exitCode, r.termination)
      ensures r.Finished? ==> r.success == (r.exitCode == 0)
      ensures r.Finished? ==> r.reason == match r.termination {
        case None => if r.exitCode == 0 then "completed" else "exit_nonzero"
        case Some(t) => if t.oomKilled then "oom_killed" else "signal"
      }
      ensures r.WaitFailed? ==> WaitFailure(env, w, sandbox, id, r.failure)
      ensures LogService(env, sandbox, id, full) && old(Follows(full)) ==> Follows(full)
      // exactly the output from where the handle was, and all of it if "finished" means so
      ensures LogService(env, sandbox, id, full) && old(Follows(full)) && r.Finished? ==>
                && SliceOf(full.stdout, old(stdoutOffset), r.stdout, stdoutOffset)
                && SliceOf(full.stderr, old(stderrOffset), r.stderr, stderrOffset)
                && (FinishesAtTheEnd(env, sandbox, id, full) ==>
                     r.stdout == full.stdout[old(stdoutOffset)..] && r.stderr == full.stderr[old(stderrOffset)..])
    {
      hide LogsPath, InfoPath, Call, LogService, FinishesAtTheEnd, EndReported, EndedIn;
      PathIsInfo(sandbox, id);
      ghost var polls :| Settles(env, w0, sandbox, id, stdoutOffset, stderrOffset, polls);
      w := w0;
      var out, err := "", "";
      ghost var follows := LogService(env, sandbox, id, full) && Follows(full);
      ghost var a, b := stdoutOffset, stderrOffset;
      ghost var c, d, before := a, b, w;
      while true
        invariant follows ==> Follows(full)
        invariant follows ==> SliceOf(full.stdout, a, out, stdoutOffset) && SliceOf(full.stderr, b, err, stderrOffset)
        invariant Settles(env, w, sandbox, id, stdoutOffset, stderrOffset, polls)
        invariant |w0.wire| <= |w.wire|
        decreases polls
      {
        c, d, before := stdoutOffset, stderrOffset, w;
        var logged, page;
        logged, page, w := Logs(env, w, full);
        CallShape(env, before, Get(LogsPath(sandbox, id, c, d)));
        if logged.Err? {
          GetFailure(env, before, LogsPath(sandbox, id, c, d));
          return WaitFailed(logged.failure), w;
        }
        if follows {
          SlicesJoin(full.stdout, a, out, c, page.stdout, stdoutOffset);
          SlicesJoin(full.stderr, b, err, d, page.stderr, stderrOffset);
        }
        out, err := out + page.stdout, err + page.stderr;
        if page.state == "finished" {
          break;
        }
        var cut := env.nap(|w.slept|);
        w := Sleep(env, w, POLL);
        if cut.Some? {
          assert RestCut(env, w, SleepCut(cut.value));
          CutIsMet(env, w, InfoPath(sandbox, id), SleepCut(cut.value));
          return WaitFailed(SleepCut(cut.value)), w;
        }
        polls := polls - 1;
      }
      ghost var finished := w;
      var described;
      described, w := RequestInto(env, w, Get(InfoPath(sandbox, id)));
      if described.Err? {
        GetFailure(env, finished, InfoPath(sandbox, id));
        return WaitFailed(described.failure), w;
      }
      var info := AsInfo(described.payload);
      var exitCode := if info.exitCode.Some? then info.exitCode.value else 0;
      var reason := "completed";
      if info.termination.Some? {
        if info.termination.value.oomKilled {
          reason := "oom_killed";
        } else {
          reason := "signal";
        }
      } else if exitCode != 0 {
        reason := "exit_nonzero";
      }
      EndIsReported(env, w0, before, sandbox, id, c, d);
      return Finished(out, err, exitCode, exitCode == 0, reason, info.termination), w;
    }
  }

  lemma SlicesJoin(full: string, a: int, first: string, b: int, second: string, c: int)
    requires SliceOf(full, a, first, b) && SliceOf(full, b, second, c)
    ensures SliceOf(full, a, first + second, c)
  {
  }

  // -------------------------------------- different offsets ask different questions

  predicate AllDigits(s: string) {
    forall c :: c in s ==> '0' <= c <= '9'
  }

  function Value(s: string): int {
    if s == "" then 0 else 10 * Value(s[..|s| - 1]) + (s[|s| - 1] as int - '0' as int)
  }

  lemma ValueSnoc(s: string, k: nat)
    requires k < 10 && AllDigits(s)
    ensures var c := ('0' as int + k) as char;
      Value(s + [c]) == 10 * Value(s) + k && AllDigits(s + [c])
  {
    var c := ('0' as int + k) as char;
    assert (s + [c])[..|s|] == s;
    assert forall x :: x in s + [c] <==> x in s || x == c;
  }

  lemma {:induction false} DigitsDenote(n: nat)
    ensures Digits(n) != "" && AllDigits(Digits(n)) && Value(Digits(n)) == n
  {
    if n < 10 {
      ValueSnoc("", n);
    } else {
      DigitsDenote(n / 10);
      ValueSnoc(Digits(n / 10), n % 10);
    }
  }

  lemma SameRest(front: string, left: string, right: string)
    requires front + left == front + right
    ensures left == right
  {
    assert (front + left)[|front|..] == left && (front + right)[|front|..] == right;
  }

  lemma PathSplits(sandbox: string, process: string, a: int, b: int)
    ensures LogsPath(sandbox, process, a, b) ==
      SandboxPath(sandbox, "/processes/" + process + "/logs?stdout_offset=") + (Itoa(a) + MIDDLE + Itoa(b))
  {
    var suffix := "/processes/" + process + "/logs?stdout_offset=";
    var base, rest := SANDBOXES + "/" + sandbox, Itoa(a) + MIDDLE + Itoa(b);
    assert suffix + Itoa(a) + MIDDLE + Itoa(b) == suffix + rest;
    assert base + (suffix + rest) == (base + suffix) + rest;
  }

  /** The offsets can be read off the path, so an honest service has an answer for each. */
  lemma OffsetsAreInThePath(sandbox: string, process: string, a: nat, b: nat, c: nat, d: nat)
    requires LogsPath(sandbox, process, a, b) == LogsPath(sandbox, process, c, d)
    ensures a == c && b == d
  {
    hide LogsPath, SandboxPath, Digits;
    DigitsDenote(a);
    DigitsDenote(b);
    DigitsDenote(c);
    DigitsDenote(d);
    PathSplits(sandbox, process, a, b);
    PathSplits(sandbox, process, c, d);
    SameRest(SandboxPath(sandbox, "/processes/" + process + "/logs?stdout_offset="),
             Itoa(a) + MIDDLE + Itoa(b), Itoa(c) + MIDDLE + Itoa(d));
    FirstNonDigit(Itoa(a), Itoa(b), Itoa(c), Itoa(d));
  }

  lemma FirstNonDigit(a: string, b: string, c: string, d: string)
    requires AllDigits(a) && AllDigits(c) && a + MIDDLE + b == c + MIDDLE + d
    ensures a == c && b == d
  {
    var s := a + MIDDLE + b;
    assert s[|a|] == '&' && s[|c|] == '&';
    assert forall i :: 0 <= i < |a| ==> s[i] == a[i] && a[i] in a;
    assert forall i :: 0 <= i < |c| ==> s[i] == c[i] && c[i] in c;
    assert |a| == |c|;
    assert a == s[..|a|] && c == s[..|c|];
    assert b == s[|a| + |MIDDLE|..] && d == s[|c| + |MIDDLE|..];
  }
}
