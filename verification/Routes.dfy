/** Which requests may be sent again: the classification by method and path. */
module Routes {
  const SANDBOXES := "/v1/sandboxes"
  const SNAPSHOTS := "/v1/snapshots"

  /** The end of the path proper: the string ends or a query starts. */
  predicate EndsAt(path: string, e: nat) {
    e <= |path| && (e == |path| || path[e] == '?')
  }

  /** A nonempty path segment. */
  predicate Segment(s: string) {
    s != "" && '/' !in s
  }

  /** `text` is `prefix`, a segment between slashes, and `last`. */
  predicate SegmentBetween(text: string, prefix: string, last: string) {
    && |prefix| + |last| + 2 < |text|
    && prefix + "/" <= text
    && text[|text| - |last| - 1..] == "/" + last
    && Segment(text[|prefix| + 1..|text| - |last| - 1])
  }

  /** The alternatives of the first route pattern. */
  predicate KeyedRoute(text: string) {
    || text == "/v1/sandboxes" || text == "/v1/sandboxes/async" || text == "/v1/run"
    || text == "/v1/volumes" || text == "/v1/environments"
    || SegmentBetween(text, SNAPSHOTS, "replicas")
    || SegmentBetween(text, SANDBOXES, "fork") || SegmentBetween(text, SANDBOXES, "snapshots")
    || SegmentBetween(text, SANDBOXES, "previews") || SegmentBetween(text, SANDBOXES, "fanout")
  }

  /** POST routes that are replayed, and get a generated key. */
  predicate ReplayablePattern(path: string) {
    exists e: nat :: e <= |path| && EndsAt(path, e) && KeyedRoute(path[..e])
  }

  /** POST routes that are replayed without a key. */
  predicate IdempotentPostPattern(path: string) {
    exists e: nat :: e <= |path| && EndsAt(path, e) && SegmentBetween(path[..e], SANDBOXES, "resume")
  }

  /** The path before its query. */
  function BeforeQuery(path: string): (p: string)
    ensures p <= path && '?' !in p
  {
    if path == "" || path[0] == '?' then "" else
      assert path == [path[0]] + path[1..];
      [path[0]] + BeforeQuery(path[1..])
  }

  predicate Replayable(verb: string, path: string) {
    if verb == "GET" || verb == "HEAD" then true
    else if verb == "PUT" && BeforeQuery(path) == SANDBOXES then true
    else if verb != "POST" then false
    else ReplayablePattern(path) || IdempotentPostPattern(path)
  }

  /** A sandbox's own route. */
  function SandboxPath(id: string, suffix: string): string {
    SANDBOXES + "/" + id + suffix
  }

  /** An escaped identifier. */
  predicate Escaped(id: string) {
    Segment(id) && '?' !in id
  }

  /** `suffix` is "/" and `name`, possibly with a query. */
  predicate Names(suffix: string, name: string) {
    "/" + name <= suffix && EndsAt(suffix, |name| + 1)
  }

  predicate NamesKeyed(suffix: string) {
    Names(suffix, "fork") || Names(suffix, "snapshots") || Names(suffix, "previews") || Names(suffix, "fanout")
  }

  // ----------------------------------------------------- sandbox POST routes

  predicate PlainName(name: string) { '/' !in name && '?' !in name && name != "" }

  /** On a route below `prefix`, the only segment a pattern can match is the identifier. */
  lemma OwnSegment(prefix: string, id: string, suffix: string, e: nat, name: string)
    requires Escaped(id) && "/" <= suffix && PlainName(name)
    requires var path := prefix + "/" + id + suffix; e <= |path| && EndsAt(path, e) && SegmentBetween(path[..e], prefix, name)
    ensures Names(suffix, name)
  {
    var path := prefix + "/" + id + suffix;
    var text := path[..e];
    var n, k := |prefix| + 1, e - |name| - 1;
    assert path[n..] == id + suffix;
    assert text[n..k] == path[n..k] && path[k] == '/' by { assert text[k..][0] == '/'; }
    FirstSlash(path, n, k, id, suffix);
    assert suffix[..|name| + 1] == text[k..];
  }

  lemma SandboxSegment(id: string, suffix: string, e: nat, name: string)
    requires Escaped(id) && "/" <= suffix && PlainName(name)
    requires e <= |SandboxPath(id, suffix)| && EndsAt(SandboxPath(id, suffix), e)
    requires SegmentBetween(SandboxPath(id, suffix)[..e], SANDBOXES, name)
    ensures Names(suffix, name)
  {
    hide SegmentBetween, Names, EndsAt;
    OwnSegment(SANDBOXES, id, suffix, e, name);
  }

  /** The identifier ends at the first slash. */
  lemma FirstSlash(path: string, n: nat, k: nat, id: string, suffix: string)
    requires n <= k < |path| && path[n..] == id + suffix && "/" <= suffix && '/' !in id
    requires '/' !in path[n..k] && path[k] == '/'
    ensures k == n + |id|
  {
    assert forall j :: 0 <= j < |id| ==> path[n + j] == path[n..][j] == id[j];
    assert forall j :: n <= j < k ==> path[j] == path[n..k][j - n] && path[j] in path[n..k];
    assert path[n + |id|] == path[n..][|id|] == suffix[0] == '/';
  }

  lemma OwnSegmentBack(prefix: string, id: string, suffix: string, name: string)
    requires Escaped(id) && Names(suffix, name)
    ensures var path := prefix + "/" + id + suffix;
      var e := |prefix| + |id| + |name| + 2;
      e <= |path| && EndsAt(path, e) && SegmentBetween(path[..e], prefix, name)
  {
    var path, base := prefix + "/" + id + suffix, prefix + "/" + id;
    var e, n := |base| + |name| + 1, |prefix| + 1;
    assert path == base + suffix;
    var text := path[..e];
    assert text == base + suffix[..|name| + 1] == base + ("/" + name);
    assert text[n..e - |name| - 1] == id;
    assert text[e - |name| - 1..] == "/" + name;
    assert text[..n] == prefix + "/";
  }

  lemma SandboxSegmentBack(id: string, suffix: string, name: string)
    requires Escaped(id) && Names(suffix, name)
    ensures var e := |SandboxPath(id, "")| + |name| + 1;
      && e <= |SandboxPath(id, suffix)| && EndsAt(SandboxPath(id, suffix), e)
      && SegmentBetween(SandboxPath(id, suffix)[..e], SANDBOXES, name)
  {
    hide SegmentBetween, Names, EndsAt;
    OwnSegmentBack(SANDBOXES, id, suffix, name);
  }

  /** A sandbox route never is one of the other routes. */
  lemma SandboxRouteIsNoOther(id: string, suffix: string, e: nat)
    requires Escaped(id) && "/" <= suffix
    requires e <= |SandboxPath(id, suffix)| && EndsAt(SandboxPath(id, suffix), e)
    ensures var text := SandboxPath(id, suffix)[..e];
      && text != "/v1/sandboxes" && text != "/v1/sandboxes/async" && text != "/v1/run"
      && text != "/v1/volumes" && text != "/v1/environments"
      && !SegmentBetween(text, SNAPSHOTS, "replicas")
  {
    var path := SandboxPath(id, suffix);
    var text := path[..e];
    var n := |SANDBOXES| + 1;
    assert path[n..n + |id|] == id && path[n + |id|] == suffix[0] == '/';
    assert path[..n] == "/v1/sandboxes/";
    assert forall j :: 0 <= j < |id| ==> path[n + j] == id[j];
    assert e > n + |id|;
    assert text[..n] == "/v1/sandboxes/" && text[n + |id|] == '/';
    assert forall j :: n <= j < |"/v1/sandboxes/async"| ==> "/v1/sandboxes/async"[j] == "async"[j - n] != '/';
    assert text[5] == 'a' && "/v1/snapshots/"[5] == 'n';
    assert "/v1/run"[4] == 'r' && "/v1/volumes"[4] == 'v' && "/v1/environments"[4] == 'e' && text[4] == 's';
  }

  /** A keyed route that is a sandbox's own names one of the four suffixes. */
  lemma KeyedMeansNamed(id: string, suffix: string, e: nat)
    requires Escaped(id) && "/" <= suffix
    requires e <= |SandboxPath(id, suffix)| && EndsAt(SandboxPath(id, suffix), e) && KeyedRoute(SandboxPath(id, suffix)[..e])
    ensures NamesKeyed(suffix)
  {
    hide SegmentBetween, Names, SandboxPath, EndsAt;
    var text := SandboxPath(id, suffix)[..e];
    SandboxRouteIsNoOther(id, suffix, e);
    if SegmentBetween(text, SANDBOXES, "fork") { SandboxSegment(id, suffix, e, "fork"); }
    else if SegmentBetween(text, SANDBOXES, "snapshots") { SandboxSegment(id, suffix, e, "snapshots"); }
    else if SegmentBetween(text, SANDBOXES, "previews") { SandboxSegment(id, suffix, e, "previews"); }
    else { SandboxSegment(id, suffix, e, "fanout"); }
  }

  lemma NamedMeansKeyed(id: string, suffix: string)
    requires Escaped(id) && NamesKeyed(suffix)
    ensures ReplayablePattern(SandboxPath(id, suffix))
  {
    hide SegmentBetween, Names, SandboxPath, EndsAt;
    if Names(suffix, "fork") { SandboxSegmentBack(id, suffix, "fork"); }
    else if Names(suffix, "snapshots") { SandboxSegmentBack(id, suffix, "snapshots"); }
    else if Names(suffix, "previews") { SandboxSegmentBack(id, suffix, "previews"); }
    else { SandboxSegmentBack(id, suffix, "fanout"); }
  }

  /** The classification of a sandbox POST depends on its suffix only: for every
      identifier, four suffixes get a generated key, and those and resume are replayed. */
  lemma SandboxPostClassified(id: string, suffix: string)
    requires Escaped(id) && "/" <= suffix
    ensures ReplayablePattern(SandboxPath(id, suffix)) <==> NamesKeyed(suffix)
    ensures Replayable("POST", SandboxPath(id, suffix)) <==> NamesKeyed(suffix) || Names(suffix, "resume")
  {
    hide SegmentBetween, Names, SandboxPath, EndsAt, KeyedRoute, NamesKeyed;
    var path := SandboxPath(id, suffix);
    forall e: nat | e <= |path| && EndsAt(path, e) && KeyedRoute(path[..e]) ensures NamesKeyed(suffix) {
      KeyedMeansNamed(id, suffix, e);
    }
    forall e: nat | e <= |path| && EndsAt(path, e) && SegmentBetween(path[..e], SANDBOXES, "resume")
      ensures Names(suffix, "resume")
    {
      SandboxSegment(id, suffix, e, "resume");
    }
    if NamesKeyed(suffix) { NamedMeansKeyed(id, suffix); }
    if Names(suffix, "resume") { SandboxSegmentBack(id, suffix, "resume"); }
  }

  /** Writes below a sandbox and deletions are never replayed. */
  lemma WritesAreNotReplayable(id: string, suffix: string)
    ensures !Replayable("DELETE", SandboxPath(id, suffix))
    ensures !Replayable("PUT", SandboxPath(id, suffix))
  {
    var path := SandboxPath(id, suffix);
    QueryStarts(path);
    assert path[|SANDBOXES|] == '/';
  }

  lemma {:induction false} QueryStarts(path: string)
    ensures EndsAt(path, |BeforeQuery(path)|)
  {
    if path != "" && path[0] != '?' {
      QueryStarts(path[1..]);
    }
  }

  lemma QueryIsCut(path: string, query: string)
    requires '?' !in path && (query == "" || "?" <= query)
    ensures BeforeQuery(path + query) == path
  {
    hide BeforeQuery;
    var whole := path + query;
    var b := BeforeQuery(whole);
    QueryStarts(whole);
    assert forall i :: 0 <= i < |path| ==> whole[i] == path[i] && path[i] in path;
    assert forall i :: 0 <= i < |b| ==> whole[i] == b[i] && b[i] in b;
    assert query != "" ==> whole[|path|] == '?';
    assert b == whole[..|b|] && path == whole[..|path|];
  }

  /** Creating sandboxes, volumes and environments and running once get a key, with or
      without a query. */
  lemma FixedRoutesAreKeyed(route: string, query: string)
    requires route == "/v1/sandboxes" || route == "/v1/sandboxes/async" || route == "/v1/run"
             || route == "/v1/volumes" || route == "/v1/environments"
    requires query == "" || "?" <= query
    ensures ReplayablePattern(route + query)
  {
    hide SegmentBetween;
    var path := route + query;
    assert path[..|route|] == route && EndsAt(path, |route|);
    assert KeyedRoute(path[..|route|]);
  }

  // ------------------------------------------------------------ all other POSTs

  /** A POST below a snapshot is keyed and replayed exactly for its replicas. */
  lemma SnapshotPostClassified(id: string, suffix: string)
    requires Escaped(id) && "/" <= suffix
    ensures var path := "/v1/snapshots/" + id + suffix;
      (ReplayablePattern(path) <==> Names(suffix, "replicas")) && (Replayable("POST", path) <==> Names(suffix, "replicas"))
  {
    hide SegmentBetween, Names, EndsAt, KeyedRoute;
    var path := "/v1/snapshots/" + id + suffix;
    assert path == SNAPSHOTS + "/" + id + suffix;
    forall e: nat | e <= |path| && EndsAt(path, e)
      ensures KeyedRoute(path[..e]) ==> SegmentBetween(path[..e], SNAPSHOTS, "replicas")
      ensures !SegmentBetween(path[..e], SANDBOXES, "resume")
    {
      SnapshotRouteIsNoOther(path, e);
    }
    forall e: nat | e <= |path| && EndsAt(path, e) && SegmentBetween(path[..e], SNAPSHOTS, "replicas") ensures Names(suffix, "replicas") {
      OwnSegment(SNAPSHOTS, id, suffix, e, "replicas");
    }
    if Names(suffix, "replicas") {
      OwnSegmentBack(SNAPSHOTS, id, suffix, "replicas");
      var e := |SNAPSHOTS| + |id| + |"replicas"| + 2;
      assert KeyedRoute(path[..e]) by { KeyedByReplicas(path[..e]); }
    }
  }

  lemma KeyedByReplicas(text: string)
    requires SegmentBetween(text, SNAPSHOTS, "replicas")
    ensures KeyedRoute(text)
  {
  }

  lemma SnapshotRouteIsNoOther(path: string, e: nat)
    requires "/v1/snapshots/" <= path && e <= |path|
    ensures KeyedRoute(path[..e]) ==> SegmentBetween(path[..e], SNAPSHOTS, "replicas")
    ensures !SegmentBetween(path[..e], SANDBOXES, "resume")
  {
    var text := path[..e];
    assert |text| > 5 ==> text[5] == path[5] == 'n';
    assert "/v1/sandboxes"[5] == 'a' && "/v1/sandboxes/"[5] == 'a' && "/v1/run"[5] == 'u' && "/v1/volumes"[5] == 'o';
    assert "/v1/environments"[5] == 'n' && "/v1/environments"[4] == 'e' && "/v1/snapshots/"[4] == 's';
  }

  const COLLECTIONS: set<string> := {"/v1/sandboxes", "/v1/run", "/v1/volumes", "/v1/environments"}

  /** A POST elsewhere is keyed and replayed exactly if it is one of four fixed routes,
      with or without a query. */
  lemma OtherPostsClassified(path: string)
    requires !("/v1/sandboxes/" <= path) && !("/v1/snapshots/" <= path)
    ensures ReplayablePattern(path) <==> BeforeQuery(path) in COLLECTIONS
    ensures Replayable("POST", path) <==> ReplayablePattern(path)
  {
    hide KeyedRoute, SegmentBetween, BeforeQuery, EndsAt;
    QueryStarts(path);
    var b := |BeforeQuery(path)|;
    assert path[..b] == BeforeQuery(path);
    if path[..b] in COLLECTIONS {
      CollectionsAreKeyed(path[..b]);
    }
    forall e: nat | e <= |path| && EndsAt(path, e)
      ensures KeyedRoute(path[..e]) ==> BeforeQuery(path) in COLLECTIONS
      ensures !SegmentBetween(path[..e], SANDBOXES, "resume")
    {
      Elsewhere(path, e);
    }
  }

  lemma CollectionsAreKeyed(route: string)
    requires route in COLLECTIONS
    ensures KeyedRoute(route)
  {
  }

  lemma Elsewhere(path: string, e: nat)
    requires !("/v1/sandboxes/" <= path) && !("/v1/snapshots/" <= path) && e <= |path| && EndsAt(path, e)
    ensures KeyedRoute(path[..e]) ==> BeforeQuery(path) in COLLECTIONS
    ensures !SegmentBetween(path[..e], SANDBOXES, "resume")
  {
    hide BeforeQuery, KeyedRoute, SegmentBetween;
    var text := path[..e];
    PrefixOfText(path, e, "/v1/sandboxes/");
    PrefixOfText(path, e, "/v1/snapshots/");
    KeyedElsewhere(text);
    if KeyedRoute(text) {
      assert path == text + path[e..];
      NoQuery(text);
      QueryIsCut(text, path[e..]);
    }
  }

  lemma PrefixOfText(path: string, e: nat, prefix: string)
    requires e <= |path| && !(prefix <= path)
    ensures !(prefix <= path[..e])
  {
  }

  lemma NoQuery(route: string)
    requires route in COLLECTIONS
    ensures '?' !in route
  {
  }

  lemma KeyedElsewhere(text: string)
    requires !("/v1/sandboxes/" <= text) && !("/v1/snapshots/" <= text)
    ensures KeyedRoute(text) ==> text in COLLECTIONS
    ensures !SegmentBetween(text, SANDBOXES, "resume")
  {
    hide Segment;
    assert SANDBOXES + "/" == "/v1/sandboxes/" && SNAPSHOTS + "/" == "/v1/snapshots/";
    assert "/v1/sandboxes/" <= "/v1/sandboxes/async";
  }
}
