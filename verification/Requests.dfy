/** What create, run and exec requests say, entry by entry, in terms of the options. */
module Requests {
  import opened Text
  import opened RunSpec

  function Entry(body: Body, k: Key): Option<Json> {
    if k in body then Some(body[k]) else None
  }

  function NetworkEntry(network: map<NetworkKey, Json>, k: NetworkKey): Option<Json> {
    if k in network then Some(network[k]) else None
  }

  /** A text that is sent unless it is empty. */
  function Unless(text: string): Option<Json> {
    if text == "" then None else Some(Words(text))
  }

  /** These words, in this order. */
  ghost predicate IsWords(j: Json, ws: seq<string>) {
    j.Array? && |j.items| == |ws| && forall i :: 0 <= i < |ws| ==> j.items[i] == Words(ws[i])
  }

  lemma ShownEntry(body: Body, field: Key -> Option<Json>, k: Key)
    requires Shows(body, field)
    ensures Entry(body, k) == field(k)
  {
  }

  /** A create request without a snapshot asks for the template base, 4096 MB and 2 CPUs
      unless told otherwise; one with a snapshot asks for nothing it was not told. */
  lemma ShapeSaid(body: Body, o: Options)
    requires Shows(body, k => CreateField(o, k))
    ensures Entry(body, SnapshotId) == Unless(o.s.snapshotID)
    ensures o.s.snapshotID == "" ==>
      && Entry(body, Template) == Some(Words(if o.s.template == "" then "base" else o.s.template))
      && Entry(body, MemoryMb) == Some(Number(if o.s.memoryMB == 0 then 4096 else o.s.memoryMB))
      && Entry(body, Vcpu) == Some(Number(if o.s.vcpu == 0 then 2 else o.s.vcpu))
    ensures o.s.snapshotID != "" ==>
      && Entry(body, Template) == Unless(o.s.template)
      && Entry(body, MemoryMb) == (if o.s.memoryMB == 0 then None else Some(Number(o.s.memoryMB)))
      && Entry(body, Vcpu) == (if o.s.vcpu == 0 then None else Some(Number(o.s.vcpu)))
  {
    hide Shows;
    var field := (k: Key) => CreateField(o, k);
    ShownEntry(body, field, SnapshotId);
    ShownEntry(body, field, Template);
    ShownEntry(body, field, MemoryMb);
    ShownEntry(body, field, Vcpu);
  }

  /** Names, keys and regions go where they belong, and are absent when not given. */
  lemma IdentitySaid(body: Body, o: Options)
    requires Shows(body, k => CreateField(o, k))
    ensures Entry(body, Name) == Unless(o.s.name) && Entry(body, Region) == Unless(o.s.region)
    ensures Entry(body, SshPublicKey) == Unless(o.s.sshPublicKey) && Entry(body, EnableSsh) == Some(Flag(o.s.enableSSH))
    ensures Entry(body, NetworkProfile) == match o.networkProfile { case None => None case Some(p) => Some(Profile(p)) }
  {
    hide Shows;
    var field := (k: Key) => CreateField(o, k);
    ShownEntry(body, field, Name);
    ShownEntry(body, field, Region);
    ShownEntry(body, field, SshPublicKey);
    ShownEntry(body, field, EnableSsh);
    ShownEntry(body, field, NetworkProfile);
  }

  /** Zero and false are sent when they are given, and so are empty maps. */
  lemma LifetimeSaid(body: Body, o: Options)
    requires Shows(body, k => CreateField(o, k))
    ensures Entry(body, TtlSeconds) == match o.ttlSeconds { case None => None case Some(n) => Some(Number(n)) }
    ensures Entry(body, Persist) == match o.persist { case None => None case Some(b) => Some(Flag(b)) }
    ensures Entry(body, Metadata) == match o.metadata { case None => None case Some(m) => Some(Dictionary(m)) }
  {
    hide Shows;
    var field := (k: Key) => CreateField(o, k);
    ShownEntry(body, field, TtlSeconds);
    ShownEntry(body, field, Persist);
    ShownEntry(body, field, Metadata);
  }

  ghost predicate IsVolumes(j: Json, vs: seq<VolumeMount>) {
    j.Array? && |j.items| == |vs| && forall i :: 0 <= i < |vs| ==> j.items[i] == Volume(vs[i])
  }

  /** Plain names in order, followed by bundles in order. */
  ghost predicate IsSources(j: Json, ws: seq<string>, rs: seq<SecretReference>) {
    && j.Array? && |j.items| == |ws| + |rs|
    && (forall i :: 0 <= i < |ws| ==> j.items[i] == Words(ws[i]))
    && (forall i :: 0 <= i < |rs| ==> j.items[|ws| + i] == Bundle(rs[i].name, rs[i].nameSpace, rs[i].requiredKeys.GetOr([])))
  }

  lemma VolumesSaid(body: Body, o: Options)
    requires Shows(body, k => CreateField(o, k))
    ensures match o.volumes case None => Volumes !in body case Some(vs) => Volumes in body && IsVolumes(body[Volumes], vs)
  {
    hide Shows;
    ShownEntry(body, k => CreateField(o, k), Volumes);
  }

  /** Plain names and bundles share one list. */
  lemma SecretsSaid(body: Body, o: Options)
    requires Shows(body, k => CreateField(o, k))
    ensures Secrets in body <==> o.secrets.Some? || o.secretBundles.Some?
    ensures Secrets in body ==> IsSources(body[Secrets], o.secrets.GetOr([]), o.secretBundles.GetOr([]))
  {
    hide Shows, WordList, BundleList, IsSources;
    ShownEntry(body, k => CreateField(o, k), Secrets);
    SourcesListed(o.secrets.GetOr([]), o.secretBundles.GetOr([]));
    assert WordList(o.secrets.GetOr([])) + [] == WordList(o.secrets.GetOr([]));
  }

  lemma SourcesListed(ws: seq<string>, rs: seq<SecretReference>)
    ensures IsSources(Array(WordList(ws) + BundleList(rs)), ws, rs)
    ensures IsSources(Array(WordList(ws)), ws, [])
  {
  }

  ghost predicate IsPolicy(p: map<NetworkKey, Json>, o: Options) {
    && (match o.networkAllow case None => Allow !in p case Some(ws) => Allow in p && IsWords(p[Allow], ws))
    && (match o.networkDeny case None => Deny !in p case Some(ws) => Deny in p && IsWords(p[Deny], ws))
    && (match o.presetOptions case None => PresetOptions !in p case Some(ws) => PresetOptions in p && IsWords(p[PresetOptions], ws))
    && NetworkEntry(p, Preset) == Unless(o.s.egressPreset)
    && NetworkEntry(p, VerifySni) == (if o.s.verifySNI then Some(Flag(true)) else None)
  }

  /** A network policy is sent when any of its lists or the preset is given; each part of it
      is what the option of that name says. */
  lemma NetworkSaid(body: Body, o: Options)
    requires Shows(body, k => CreateField(o, k))
    ensures Network in body <==> o.networkAllow.Some? || o.networkDeny.Some? || o.presetOptions.Some? || o.s.egressPreset != ""
    ensures Network in body ==> body[Network].Policy? && IsPolicy(body[Network].fields, o)
  {
    hide Shows;
    ShownEntry(body, k => CreateField(o, k), Network);
  }

  /** A create request says nothing about a command. */
  lemma NoCommandSaid(body: Body, o: Options, k: Key)
    requires Shows(body, k => CreateField(o, k)) && IsRunKey(k)
    ensures k !in body
  {
    hide Shows;
    ShownEntry(body, k => CreateField(o, k), k);
    CreateKeys(o);
  }

  /** A run request says all that its create options say. */
  lemma RunSaysCreate(body: Body, created: Body, c: Command, o: Options, k: Key)
    requires Shows(body, k => RunField(c, o, k)) && Shows(created, k => CreateField(o, k)) && !IsRunKey(k)
    ensures Entry(body, k) == Entry(created, k)
  {
    hide Shows, CreateField;
    ShownEntry(body, k => RunField(c, o, k), k);
    ShownEntry(created, k => CreateField(o, k), k);
  }

  /** A command line comes before a list of arguments; the user is never sent. */
  lemma CommandSaid(body: Body, c: Command, o: Options)
    requires Shows(body, k => RunField(c, o, k))
    ensures Entry(body, Cmd) == Unless(c.cmd)
    ensures c.cmd != "" ==> Argv !in body
    ensures c.cmd == "" ==> Argv in body && (match c.argv case None => body[Argv] == Null case Some(ws) => IsWords(body[Argv], ws))
    ensures User !in body
  {
    hide Shows, CreateField;
    ShownEntry(body, k => RunField(c, o, k), Cmd);
    ShownEntry(body, k => RunField(c, o, k), Argv);
    ShownEntry(body, k => RunField(c, o, k), User);
    CreateKeys(o);
  }

  lemma DefaultsSaid(body: Body, c: Command, o: Options)
    requires Shows(body, k => RunField(c, o, k))
    ensures Entry(body, Cwd) == Unless(o.s.cwd) && Entry(body, Stdin) == Unless(o.s.stdin)
    ensures Entry(body, Env) == match o.env { case None => None case Some(m) => Some(Dictionary(m)) }
    ensures Entry(body, TimeoutMs) == if o.s.timeoutMs == 0 then None else Some(Number(o.s.timeoutMs))
    ensures Entry(body, KeepSandbox) == if o.s.keepSandbox then Some(Flag(true)) else None
  {
    hide Shows, CreateField;
    var field := (k: Key) => RunField(c, o, k);
    ShownEntry(body, field, Cwd);
    ShownEntry(body, field, Stdin);
    ShownEntry(body, field, Env);
    ShownEntry(body, field, TimeoutMs);
    ShownEntry(body, field, KeepSandbox);
  }

  /** An exec request names the user as well, and leaves the rest of the body as it was. */
  lemma ExecSaid(body: Body, given: Body, o: Options)
    requires Shows(body, k => ExecField(o, k), given)
    ensures o.s.user != "" ==> Entry(body, User) == Some(Words(o.s.user))
    ensures o.s.cwd != "" ==> Entry(body, Cwd) == Some(Words(o.s.cwd))
    ensures o.s.stdin != "" ==> Entry(body, Stdin) == Some(Words(o.s.stdin))
    ensures o.s.timeoutMs != 0 ==> Entry(body, TimeoutMs) == Some(Number(o.s.timeoutMs))
    ensures o.env.Some? ==> Entry(body, Env) == Some(Dictionary(o.env.value))
    ensures forall k :: !IsExecOption(k) ==> Entry(body, k) == Entry(given, k)
  {
  }
}
