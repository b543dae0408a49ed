/** Writing a file: in one request when it is small, in appended chunks when it is not. */
module Upload {
  import opened Text
  import opened Routes
  import opened Transport
  import opened Delivery
  import opened Retries

  const MAX_UPLOAD := 8 * 1024 * 1024
  const MAX_FILE := 256 * 1024 * 1024
  const CHUNK := 6 * 1024 * 1024

  /** The body of a write, its content already decoded. */
  datatype Payload = Payload(path: string, content: string, createParents: bool, user: Option<string>, append: bool)

  /** The files of a sandbox. */
  type Disk = map<string, string>

  function Held(disk: Disk, path: string): string {
    if path in disk then disk[path] else ""
  }

  /** What the service does with a write. */
  function Written(disk: Disk, p: Payload): Disk {
    disk[p.path := if p.append then Held(disk, p.path) + p.content else p.content]
  }

  function Route(id: string): string {
    SandboxPath(id, "/files/content")
  }

  /** An honest service that carries writes on this route out as such. */
  ghost predicate FileService(env: Env<Disk, Payload, int>, route: string) {
    && Honest(env)
    && forall s: Disk, m: Wire<Payload> :: m.verb == "PUT" && m.path == route ==> env.apply(s, m) == Written(s, m.body)
  }

  /** The user is named only if there is one; `append` only on later chunks. */
  function WritePayload(path: string, content: string, appendChunk: bool, user: string): Payload {
    Payload(path, content, true, if user == "" then None else Some(user), appendChunk)
  }

  function WriteRequest(id: string, p: Payload, builds: bool, wantsOutput: bool): Request<Payload> {
    Request("PUT", Route(id), p, "", true, builds, wantsOutput)
  }

  /** A write reaches the disk once or not at all, and once if it is confirmed. */
  lemma WriteLandsOnce(env: Env<Disk, Payload, int>, w: World<Disk, Payload>, id: string, p: Payload, builds: bool, wantsOutput: bool)
    requires FileService(env, Route(id))
    ensures var (r, after) := Call(env, w, WriteRequest(id, p, builds, wantsOutput));
      && (after.state == w.state || after.state == Written(w.state, p))
      && (r.Ok? ==> after.state == Written(w.state, p))
  {
    if builds {
      WritesAreNotReplayable(id, "/files/content");
      AtMostOnce(env, w, Wire("PUT", Route(id), p, ""), wantsOutput, 0);
    }
  }

  datatype WriteResult = Done | TooLarge | Failed(failure: Failure) | Partial(landed: nat, failure: Failure)

  /** The disk holds the first `n` bytes of `content` at `path`, and is otherwise as it
      was; nothing changed at all if `n` is 0. */
  predicate Holds(before: Disk, after: Disk, path: string, content: string, n: nat) {
    n <= |content| && after == if n == 0 then before else before[path := content[..n]]
  }

  function Next(landed: nat, total: nat): nat {
    if landed + CHUNK > total then total else landed + CHUNK
  }

  /** A message that writes `content` or, where it is too large for one message, a chunk of
      it; every chunk but the first is appended. */
  ghost predicate IsWrite(m: Wire<Payload>, id: string, user: string, path: string, content: string) {
    && m.verb == "PUT" && m.path == "/v1/sandboxes/" + id + "/files/content" && m.key == ""
    && m.body.path == path && m.body.createParents && m.body.user == (if user == "" then None else Some(user))
    && if |content| <= 8_388_608 then m.body.content == content && !m.body.append
       else exists offset: nat :: offset % 6_291_456 == 0 && IsChunk(m.body, content, offset)
  }

  predicate IsChunk(p: Payload, content: string, offset: nat) {
    && offset < |content| && (p.append <==> offset > 0)
    && p.content == content[offset..if offset + 6_291_456 > |content| then |content| else offset + 6_291_456]
  }

  ghost predicate AllWrites(wire: seq<Wire<Payload>>, id: string, user: string, path: string, content: string) {
    forall m :: m in wire ==> IsWrite(m, id, user, path, content)
  }

  lemma WritesMore(before: World<Disk, Payload>, after: World<Disk, Payload>, start: nat, id: string, user: string, path: string, content: string, m: Wire<Payload>)
    requires start <= |before.wire| && before.wire <= after.wire
    requires AllWrites(before.wire[start..], id, user, path, content)
    requires Copies(after.wire[|before.wire|..], m) && IsWrite(m, id, user, path, content)
    ensures AllWrites(after.wire[start..], id, user, path, content)
  {
    hide IsWrite;
    assert after.wire[start..] == before.wire[start..] + after.wire[|before.wire|..];
  }

  /** The size in an answer the service gave to one of the last messages of a run. */
  ghost predicate SizeTold(env: Env<Disk, Payload, int>, w0: World<Disk, Payload>, w: World<Disk, Payload>, size: int) {
    exists n: nat, s: Disk, answer: Option<int> ::
      |w0.wire| <= n < |w.wire| && Answered(env, n, s, w.wire[n], true, answer) && size == answer.GetOr(0)
  }

  /** A failed run ended in this failure on its last message, or made no message at all. */
  ghost predicate WriteFailure(env: Env<Disk, Payload, int>, w: World<Disk, Payload>, builds: bool, wantsOutput: bool, failure: Failure) {
    if !builds then failure == NotBuildable
    else w.wire != [] && EndedIn(env, w, w.wire[|w.wire| - 1], wantsOutput, failure)
  }

  lemma RouteIs(id: string)
    ensures Route(id) == "/v1/sandboxes/" + id + "/files/content"
  {
    assert SANDBOXES + "/" == "/v1/sandboxes/";
  }

  /** What one write sends, and what its answer and its failure are. */
  lemma OneWrite(env: Env<Disk, Payload, int>, w: World<Disk, Payload>, id: string, p: Payload, builds: bool, wantsOutput: bool)
    ensures var (r, after) := Call(env, w, WriteRequest(id, p, builds, wantsOutput));
      && w.wire <= after.wire && Copies(after.wire[|w.wire|..], Wire("PUT", Route(id), p, ""))
      && (r.Ok? && wantsOutput ==> SizeTold(env, w, after, r.payload.GetOr(0)))
      && (r.Err? ==> WriteFailure(env, after, builds, wantsOutput, r.failure))
  {
    hide Attempts, Route, EndedIn;
    var m := Wire("PUT", Route(id), p, "");
    if builds {
      var (r, after) := Attempts(env, w, m, wantsOutput, 0);
      WireShape(env, w, m, wantsOutput, 0);
      FailureIsMet(env, w, m, wantsOutput);
      AnswerIsGenuine(env, w, m, wantsOutput, 0);
      forall i | |w.wire| <= i < |after.wire| ensures after.wire[i] == m {
        assert after.wire[|w.wire|..][i - |w.wire|] in after.wire[|w.wire|..];
      }
      if r.Ok? {
        var n, s :| |w.wire| <= n < |after.wire| && Answered(env, n, s, m, wantsOutput, r.payload);
        assert Answered(env, n, s, after.wire[n], wantsOutput, r.payload);
      }
    }
  }

  /** The file equals the content after a success. After a failure it is what it was, or
      the landed prefix, or that prefix and the one chunk in flight: no chunk is skipped
      and none is there twice. */
  method Write(env: Env<Disk, Payload, int>, w0: World<Disk, Payload>, id: string, user: string, path: string, content: string, builds: bool)
    returns (size: int, r: WriteResult, w: World<Disk, Payload>)
    ensures |content| > 268_435_456 <==> r.TooLarge?
    ensures r.TooLarge? ==> w == w0 && size == 0
    ensures FileService(env, Route(id)) && r.Done? ==> w.state == w0.state[path := content]
    ensures FileService(env, Route(id)) && r.Failed? ==> w.state == w0.state || w.state == w0.state[path := content]
    ensures FileService(env, Route(id)) && r.Partial? ==>
              && r.landed < |content| && r.landed % CHUNK == 0
              && (Holds(w0.state, w.state, path, content, r.landed)
                  || Holds(w0.state, w.state, path, content, Next(r.landed, |content|)))
    ensures r.Failed? ==> |content| <= 8_388_608 && size == 0 && WriteFailure(env, w, builds, true, r.failure)
    ensures r.Partial? ==> |content| > 8_388_608 && size == r.landed && WriteFailure(env, w, builds, false, r.failure)
    // the size is what was written in chunks, or what the service says of a single write
    ensures r.Done? && |content| > 8_388_608 ==> size == |content|
    ensures r.Done? && |content| <= 8_388_608 ==> SizeTold(env, w0, w, size)
    ensures w0.wire <= w.wire && AllWrites(w.wire[|w0.wire|..], id, user, path, content)
  {
    hide Call, WriteRequest, FileService, AllWrites, IsWrite, WriteFailure, SizeTold, Route;
    RouteIs(id);
    NoWrites(id, user, path, content);
    assert w0.wire[|w0.wire|..] == [];
    if |content| > MAX_FILE {
      return 0, TooLarge, w0;
    }
    if |content| <= MAX_UPLOAD {
      var p := WritePayload(path, content, false, user);
      var answer;
      answer, w := RequestInto(env, w0, WriteRequest(id, p, builds, true));
      if FileService(env, Route(id)) {
        WriteLandsOnce(env, w0, id, p, builds, true);
      }
      OneWrite(env, w0, id, p, builds, true);
      WholeIsWrite(id, user, path, content);
      WritesMore(w0, w, |w0.wire|, id, user, path, content, Wire("PUT", Route(id), p, ""));
      match answer
      case Ok(payload) => return if payload.Some? then payload.value else 0, Done, w;
      case Err(f) => return 0, Failed(f), w;
    }
    w := w0;
    var landed, offset := 0, 0;
    while offset < |content|
      invariant 0 <= landed <= |content| && offset % CHUNK == 0
      invariant landed == if offset < |content| then offset else |content|
      invariant FileService(env, Route(id)) ==> Holds(w0.state, w.state, path, content, landed)
      invariant w0.wire <= w.wire && AllWrites(w.wire[|w0.wire|..], id, user, path, content)
      decreases |content| - offset
    {
      var end := offset + CHUNK;
      if end > |content| {
        end := |content|;
      }
      var p := WritePayload(path, content[offset..end], offset > 0, user);
      ghost var before := w;
      var answer;
      answer, w := RequestInto(env, w, WriteRequest(id, p, builds, false));
      if FileService(env, Route(id)) {
        WriteLandsOnce(env, before, id, p, builds, false);
        ChunkExtends(w0.state, before.state, path, content, offset, end, user);
      }
      OneWrite(env, before, id, p, builds, false);
      ChunkIsWrite(id, user, path, content, offset, end);
      WritesMore(before, w, |w0.wire|, id, user, path, content, Wire("PUT", Route(id), p, ""));
      if answer.Err? {
        return landed, Partial(landed, answer.failure), w;
      }
      landed := landed + (end - offset);
      offset := offset + CHUNK;
    }
    assert content[..|content|] == content;
    return |content|, Done, w;
  }

  lemma NoWrites(id: string, user: string, path: string, content: string)
    ensures AllWrites([], id, user, path, content)
  {
  }

  lemma WholeIsWrite(id: string, user: string, path: string, content: string)
    requires |content| <= 8_388_608
    ensures IsWrite(Wire("PUT", Route(id), WritePayload(path, content, false, user), ""), id, user, path, content)
  {
    RouteIs(id);
  }

  lemma ChunkIsWrite(id: string, user: string, path: string, content: string, offset: nat, end: nat)
    requires |content| > 8_388_608 && offset % CHUNK == 0 && offset < |content|
    requires end == if offset + CHUNK > |content| then |content| else offset + CHUNK
    ensures IsWrite(Wire("PUT", Route(id), WritePayload(path, content[offset..end], offset > 0, user), ""), id, user, path, content)
  {
    hide Route;
    RouteIs(id);
    assert IsChunk(WritePayload(path, content[offset..end], offset > 0, user), content, offset);
  }

  lemma ChunkExtends(before: Disk, disk: Disk, path: string, content: string, offset: nat, end: nat, user: string)
    requires offset < end <= |content| && Holds(before, disk, path, content, offset)
    ensures Holds(before, Written(disk, WritePayload(path, content[offset..end], offset > 0, user)), path, content, end)
  {
    assert content[..end] == content[..offset] + content[offset..end];
    assert content[0..end] == content[..end];
  }
}
