/** The body of a run request, what copying its options does to it, and what one
    invocation of a function may change in it. */
module RunSpec {
  import opened Text

  // --------------------------------------------------------------------- options

  datatype VolumeMount = VolumeMount(name: string, mountPath: string, readOnly: bool)

  datatype ProfileReference = ProfileReference(nameSpace: string, name: string, revision: int)

  /** A list is absent (nil) or given; a given list may be empty. */
  type List<T> = Option<seq<T>>

  datatype SecretReference = SecretReference(name: string, nameSpace: string, requiredKeys: List<string>)

  datatype Command = Command(cmd: string, argv: List<string>)

  /** The fields a plain assignment copies. */
  datatype Scalars = Scalars(
    template: string, snapshotID: string, name: string, region: string, memoryMB: int, vcpu: int,
    enableSSH: bool, sshPublicKey: string, egressPreset: string, verifySNI: bool, idempotencyKey: string,
    cwd: string, stdin: string, timeoutMs: int, user: string, keepSandbox: bool,
    invocationSecrets: Option<map<string, string>>)

  datatype Options = Options(
    s: Scalars,
    networkProfile: Option<ProfileReference>, ttlSeconds: Option<int>, persist: Option<bool>,
    metadata: Option<map<string, string>>, env: Option<map<string, string>>,
    volumes: List<VolumeMount>, secrets: List<string>, secretBundles: List<SecretReference>,
    networkAllow: List<string>, networkDeny: List<string>, presetOptions: List<string>)

  // ------------------------------------------------------------------------ body

  /** The keys of a request body, and of the network object in it. */
  datatype Key =
    | SnapshotId | Template | MemoryMb | Vcpu | EnableSsh | NetworkProfile | Name | SshPublicKey | TtlSeconds
    | Persist | Metadata | Volumes | Secrets | Network | Region
    | Cmd | Argv | Cwd | Env | Stdin | TimeoutMs | KeepSandbox | User

  datatype NetworkKey = Preset | PresetOptions | Allow | Deny | VerifySni

  /** What is sent. A bundle without required keys is sent without that key, so an absent
      list and an empty one look the same there. */
  datatype Json =
    | Null | Flag(b: bool) | Number(n: int) | Words(s: string) | Dictionary(m: map<string, string>)
    | Array(items: seq<Json>) | Policy(fields: map<NetworkKey, Json>)
    | Volume(mount: VolumeMount) | Profile(profile: ProfileReference)
    | Bundle(name: string, nameSpace: string, requiredKeys: seq<string>)

  type Body = map<Key, Json>

  function WordList(ws: seq<string>): (js: seq<Json>)
    ensures |js| == |ws| && forall i :: 0 <= i < |ws| ==> js[i] == Words(ws[i])
  {
    seq(|ws|, i requires 0 <= i < |ws| => Words(ws[i]))
  }

  function VolumeList(vs: seq<VolumeMount>): (js: seq<Json>)
    ensures |js| == |vs| && forall i :: 0 <= i < |vs| ==> js[i] == Volume(vs[i])
  {
    seq(|vs|, i requires 0 <= i < |vs| => Volume(vs[i]))
  }

  function BundleJson(r: SecretReference): Json {
    Bundle(r.name, r.nameSpace, if r.requiredKeys.Some? then r.requiredKeys.value else [])
  }

  function BundleList(rs: seq<SecretReference>): (js: seq<Json>)
    ensures |js| == |rs| && forall i :: 0 <= i < |rs| ==> js[i] == BundleJson(rs[i])
  {
    seq(|rs|, i requires 0 <= i < |rs| => BundleJson(rs[i]))
  }

  /** The elements of a list; an absent list has none. */
  function Elements<T>(l: List<T>): seq<T> {
    if l.Some? then l.value else []
  }

  function Given(s: string): Option<Json> { if s == "" then None else Some(Words(s)) }

  function NonZero(n: int): Option<Json> { if n == 0 then None else Some(Number(n)) }

  function ValueOr(n: int, fallback: int): int { if n == 0 then fallback else n }

  predicate HasNetwork(o: Options) {
    o.networkAllow.Some? || o.networkDeny.Some? || o.s.egressPreset != "" || o.presetOptions.Some?
  }

  function GivenList(l: List<string>): Option<Json> {
    match l case None => None case Some(ws) => Some(Array(WordList(ws)))
  }

  /** What the network object holds under each key. */
  function NetworkField(o: Options, k: NetworkKey): Option<Json> {
    match k
    case Preset => Given(o.s.egressPreset)
    case PresetOptions => GivenList(o.presetOptions)
    case Allow => GivenList(o.networkAllow)
    case Deny => GivenList(o.networkDeny)
    case VerifySni => if o.s.verifySNI then Some(Flag(true)) else None
  }

  const NETWORK_KEYS: set<NetworkKey> := {Preset, PresetOptions, Allow, Deny, VerifySni}

  function NetworkOf(o: Options): map<NetworkKey, Json> {
    map k | k in NETWORK_KEYS && NetworkField(o, k).Some? :: NetworkField(o, k).value
  }

  function SecretsField(o: Options): Option<Json> {
    if o.secretBundles.Some? then Some(Array(WordList(Elements(o.secrets)) + BundleList(o.secretBundles.value)))
    else GivenList(o.secrets)
  }

  /** What a create request sends under each key. */
  function CreateField(o: Options, k: Key): Option<Json> {
    match k
    case SnapshotId => Given(o.s.snapshotID)
    case Template => if o.s.snapshotID != "" then Given(o.s.template) else Some(Words(if o.s.template == "" then "base" else o.s.template))
    case MemoryMb => if o.s.snapshotID != "" then NonZero(o.s.memoryMB) else Some(Number(ValueOr(o.s.memoryMB, 4096)))
    case Vcpu => if o.s.snapshotID != "" then NonZero(o.s.vcpu) else Some(Number(ValueOr(o.s.vcpu, 2)))
    case EnableSsh => Some(Flag(o.s.enableSSH))
    case NetworkProfile => if o.networkProfile.Some? then Some(Profile(o.networkProfile.value)) else None
    case Name => Given(o.s.name)
    case SshPublicKey => Given(o.s.sshPublicKey)
    case TtlSeconds => if o.ttlSeconds.Some? then Some(Number(o.ttlSeconds.value)) else None
    case Persist => if o.persist.Some? then Some(Flag(o.persist.value)) else None
    case Metadata => if o.metadata.Some? then Some(Dictionary(o.metadata.value)) else None
    case Volumes => if o.volumes.Some? then Some(Array(VolumeList(o.volumes.value))) else None
    case Secrets => SecretsField(o)
    case Network => if HasNetwork(o) then Some(Policy(NetworkOf(o))) else None
    case Region => Given(o.s.region)
    case _ => None
  }

  /** What a run request sends under each key. The user is not sent at all. */
  function RunField(c: Command, o: Options, k: Key): Option<Json> {
    match k
    case Cmd => Given(c.cmd)
    case Argv => if c.cmd != "" then None else if c.argv.Some? then GivenList(c.argv) else Some(Null)
    case Cwd => Given(o.s.cwd)
    case Env => if o.env.Some? then Some(Dictionary(o.env.value)) else None
    case Stdin => Given(o.s.stdin)
    case TimeoutMs => NonZero(o.s.timeoutMs)
    case KeepSandbox => if o.s.keepSandbox then Some(Flag(true)) else None
    case _ => CreateField(o, k)
  }

  /** The body says exactly what `field` says, and for the other keys what it was given. */
  ghost predicate Shows(body: Body, field: Key -> Option<Json>, given: Body := map[]) {
    forall k :: (k in body <==> field(k).Some? || k in given) && (k in body ==> body[k] == if field(k).Some? then field(k).value else given[k])
  }

  /** Two bodies that show the same fields are the same. */
  lemma ShowsOnce(a: Body, b: Body, f: Key -> Option<Json>, g: Key -> Option<Json>)
    requires Shows(a, f) && Shows(b, g)
    ensures a == b <==> forall k :: f(k) == g(k)
  {
    if a == b {
      forall k ensures f(k) == g(k) {
        assert k in a <==> f(k).Some?;
        assert k in b <==> g(k).Some?;
      }
    } else {
      assert exists k :: !(k in a <==> k in b) || (k in a && a[k] != b[k]);
    }
  }

  /** The order in which a body is filled. */
  function Rank(k: Key): nat {
    match k
    case SnapshotId => 0 case Template => 1 case MemoryMb => 2 case Vcpu => 3 case EnableSsh => 4
    case NetworkProfile => 5 case Name => 6 case SshPublicKey => 7 case TtlSeconds => 8 case Persist => 9
    case Metadata => 10 case Volumes => 11 case Secrets => 12 case Network => 13 case Region => 14
    case Cmd => 15 case Argv => 16 case Cwd => 17 case Env => 18 case Stdin => 19 case TimeoutMs => 20 case KeepSandbox => 21 case User => 22
  }

  /** The first `n` keys are filled in, the others are as they were given. */
  ghost predicate Filled(body: Body, field: Key -> Option<Json>, n: nat, given: Body := map[]) {
    forall k :: var filled := Rank(k) < n && field(k).Some?;
      (k in body <==> filled || k in given) && (k in body ==> body[k] == if filled then field(k).value else given[k])
  }

  /** Nothing is filled yet. */
  lemma NoneFilled(field: Key -> Option<Json>, n: nat, given: Body := map[])
    requires forall k :: Rank(k) < n ==> field(k).None?
    ensures Filled(given, field, n, given)
  {
  }

  /** Putting in the next key, when it has something to say, fills one key more. */
  lemma FillNext(body: Body, field: Key -> Option<Json>, k: Key, given: Body := map[])
    requires Filled(body, field, Rank(k), given)
    ensures Filled(if field(k).Some? then body[k := field(k).value] else body, field, Rank(k) + 1, given)
  {
    forall j | Rank(j) == Rank(k) ensures j == k {
    }
  }

  /** All keys are filled. */
  lemma AllFilled(body: Body, field: Key -> Option<Json>, n: nat, given: Body := map[])
    requires Filled(body, field, n, given) && forall k :: Rank(k) >= n ==> field(k).None?
    ensures Shows(body, field, given)
  {
  }

  /** What the sandbox is made from. */
  method FillShape(o: Options) returns (body: Body)
    ensures Filled(body, k => CreateField(o, k), 4)
  {
    ghost var field := (k: Key) => CreateField(o, k);
    hide Filled;
    body := map[];
    NoneFilled(field, 0);
    FillNext(body, field, SnapshotId);
    if o.s.snapshotID != "" {
      body := body[SnapshotId := Words(o.s.snapshotID)];
      FillNext(body, field, Template);
      if o.s.template != "" {
        body := body[Template := Words(o.s.template)];
      }
      FillNext(body, field, MemoryMb);
      if o.s.memoryMB != 0 {
        body := body[MemoryMb := Number(o.s.memoryMB)];
      }
      FillNext(body, field, Vcpu);
      if o.s.vcpu != 0 {
        body := body[Vcpu := Number(o.s.vcpu)];
      }
    } else {
      var template := o.s.template;
      if template == "" {
        template := "base";
      }
      FillNext(body, field, Template);
      body := body[Template := Words(template)];
      FillNext(body, field, MemoryMb);
      body := body[MemoryMb := Number(ValueOr(o.s.memoryMB, 4096))];
      FillNext(body, field, Vcpu);
      body := body[Vcpu := Number(ValueOr(o.s.vcpu, 2))];
    }
  }

  /** Its access and identity. */
  method FillIdentity(o: Options, filled: Body) returns (body: Body)
    requires Filled(filled, k => CreateField(o, k), 4)
    ensures Filled(body, k => CreateField(o, k), 8)
  {
    hide Filled;
    ghost var field := (k: Key) => CreateField(o, k);
    FillNext(filled, field, EnableSsh);
    body := filled[EnableSsh := Flag(o.s.enableSSH)];
    FillNext(body, field, NetworkProfile);
    if o.networkProfile.Some? {
      body := body[NetworkProfile := Profile(o.networkProfile.value)];
    }
    FillNext(body, field, Name);
    if o.s.name != "" {
      body := body[Name := Words(o.s.name)];
    }
    FillNext(body, field, SshPublicKey);
    if o.s.sshPublicKey != "" {
      body := body[SshPublicKey := Words(o.s.sshPublicKey)];
    }
  }

  /** Its lifetime and labels. */
  method FillLifetime(o: Options, filled: Body) returns (body: Body)
    requires Filled(filled, k => CreateField(o, k), 8)
    ensures Filled(body, k => CreateField(o, k), 11)
  {
    hide Filled;
    ghost var field := (k: Key) => CreateField(o, k);
    body := filled;
    FillNext(body, field, TtlSeconds);
    if o.ttlSeconds.Some? {
      body := body[TtlSeconds := Number(o.ttlSeconds.value)];
    }
    FillNext(body, field, Persist);
    if o.persist.Some? {
      body := body[Persist := Flag(o.persist.value)];
    }
    FillNext(body, field, Metadata);
    if o.metadata.Some? {
      body := body[Metadata := Dictionary(o.metadata.value)];
    }
  }

  /** Its storage and secrets; bundles and plain names share one key. */
  method FillStorage(o: Options, filled: Body) returns (body: Body)
    requires Filled(filled, k => CreateField(o, k), 11)
    ensures Filled(body, k => CreateField(o, k), 13)
  {
    hide Filled;
    ghost var field := (k: Key) => CreateField(o, k);
    body := filled;
    FillNext(body, field, Volumes);
    if o.volumes.Some? {
      body := body[Volumes := Array(VolumeList(o.volumes.value))];
    }
    FillNext(body, field, Secrets);
    ghost var before := body;
    if o.secrets.Some? {
      body := body[Secrets := Array(WordList(o.secrets.value))];
    }
    if o.secretBundles.Some? {
      var sources := WordList(Elements(o.secrets)) + BundleList(o.secretBundles.value);
      body := body[Secrets := Array(sources)];
      assert body == before[Secrets := Array(sources)];
    }
  }

  /** The step-by-step filling of a create body. */
  method CreateBody(o: Options) returns (body: Body)
    ensures Filled(body, k => CreateField(o, k), 15)
    ensures Shows(body, k => CreateField(o, k))
  {
    hide Filled, Shows, NetworkOf;
    ghost var field := (k: Key) => CreateField(o, k);
    body := FillShape(o);
    body := FillIdentity(o, body);
    body := FillLifetime(o, body);
    body := FillStorage(o, body);
    FillNext(body, field, Network);
    if o.networkAllow.Some? || o.networkDeny.Some? || o.s.egressPreset != "" || o.presetOptions.Some? {
      var network := FillNetwork(o);
      body := body[Network := Policy(network)];
    }
    FillNext(body, field, Region);
    if o.s.region != "" {
      body := body[Region := Words(o.s.region)];
    }
    AllFilled(body, field, 15);
  }

  method FillNetwork(o: Options) returns (network: map<NetworkKey, Json>)
    ensures network == NetworkOf(o)
  {
    network := map[];
    if o.s.egressPreset != "" {
      network := network[Preset := Words(o.s.egressPreset)];
    }
    if o.presetOptions.Some? {
      network := network[PresetOptions := Array(WordList(o.presetOptions.value))];
    }
    if o.networkAllow.Some? {
      network := network[Allow := Array(WordList(o.networkAllow.value))];
    }
    if o.networkDeny.Some? {
      network := network[Deny := Array(WordList(o.networkDeny.value))];
    }
    if o.s.verifySNI {
      network := network[VerifySni := Flag(true)];
    }
    forall k ensures k in network <==> k in NetworkOf(o) {
    }
  }

  /** What becomes of a run: refused, sent with private values, or submitted under a key. */
  datatype Submission = Refused | Private(body: Body, values: map<string, string>) | Submitted(body: Body, key: string)

  /** The command line or the argument list. */
  method FillCommand(c: Command, o: Options, filled: Body) returns (body: Body)
    requires Filled(filled, k => RunField(c, o, k), 15)
    ensures Filled(body, k => RunField(c, o, k), 17)
  {
    hide Filled, CreateField;
    ghost var field := (k: Key) => RunField(c, o, k);
    FillNext(filled, field, Cmd);
    if c.cmd != "" {
      body := filled[Cmd := Words(c.cmd)];
      FillNext(body, field, Argv);
    } else {
      FillNext(filled, field, Argv);
      body := filled[Argv := if c.argv.Some? then Array(WordList(c.argv.value)) else Null];
    }
  }

  /** Where and with what it runs. */
  method FillDefaults(c: Command, o: Options, filled: Body) returns (body: Body)
    requires Filled(filled, k => RunField(c, o, k), 17)
    ensures Filled(body, k => RunField(c, o, k), 20)
  {
    hide Filled, CreateField;
    ghost var field := (k: Key) => RunField(c, o, k);
    body := filled;
    FillNext(body, field, Cwd);
    if o.s.cwd != "" {
      body := body[Cwd := Words(o.s.cwd)];
    }
    FillNext(body, field, Env);
    if o.env.Some? {
      body := body[Env := Dictionary(o.env.value)];
    }
    FillNext(body, field, Stdin);
    if o.s.stdin != "" {
      body := body[Stdin := Words(o.s.stdin)];
    }
  }

  /** How long it may take, and what becomes of its sandbox. */
  method FillLimits(c: Command, o: Options, filled: Body) returns (body: Body)
    requires Filled(filled, k => RunField(c, o, k), 20)
    ensures Filled(body, k => RunField(c, o, k), 22)
  {
    hide Filled, CreateField;
    ghost var field := (k: Key) => RunField(c, o, k);
    body := filled;
    FillNext(body, field, TimeoutMs);
    if o.s.timeoutMs != 0 {
      body := body[TimeoutMs := Number(o.s.timeoutMs)];
    }
    FillNext(body, field, KeepSandbox);
    if o.s.keepSandbox {
      body := body[KeepSandbox := Flag(true)];
    }
  }

  /** Up to the region, a run body is a create body. */
  lemma RunBegins(c: Command, o: Options, body: Body)
    requires Filled(body, k => CreateField(o, k), 15)
    ensures Filled(body, k => RunField(c, o, k), 15)
  {
    hide CreateField;
  }

  method RunBody(c: Command, o: Options) returns (body: Body)
    ensures Shows(body, k => RunField(c, o, k))
  {
    body := CreateBody(o);
    hide Filled, Shows;
    RunBegins(c, o, body);
    body := FillCommand(c, o, body);
    body := FillDefaults(c, o, body);
    body := FillLimits(c, o, body);
    AllFilled(body, k => RunField(c, o, k), 22);
  }

  /** `r` is what a run of `c` under `o` comes to. Private values go with neither a kept
      sandbox nor a key. */
  ghost predicate RunsAs(r: Submission, c: Command, o: Options) {
    if o.s.invocationSecrets.None? then
      r.Submitted? && r.key == o.s.idempotencyKey && Shows(r.body, k => RunField(c, o, k))
    else if o.s.keepSandbox || o.s.idempotencyKey != "" then r.Refused?
    else r.Private? && r.values == o.s.invocationSecrets.value && Shows(r.body, k => RunField(c, o, k))
  }

  method RunOnce(c: Command, o: Options) returns (r: Submission)
    ensures RunsAs(r, c, o)
  {
    hide Shows;
    var body := RunBody(c, o);
    if o.s.invocationSecrets.Some? {
      if o.s.keepSandbox || o.s.idempotencyKey != "" {
        return Refused;
      }
      return Private(body, o.s.invocationSecrets.value);
    }
    return Submitted(body, o.s.idempotencyKey);
  }

  predicate IsRunKey(k: Key) {
    k.Cmd? || k.Argv? || k.Cwd? || k.Env? || k.Stdin? || k.TimeoutMs? || k.KeepSandbox? || k.User?
  }

  lemma CreateKeys(o: Options)
    ensures forall k :: IsRunKey(k) ==> CreateField(o, k).None?
  {
  }

  // ---------------------------------------------------------------------- copying

  /** append([]T(nil), values...): the copy of an empty list is absent. */
  function Copied<T>(l: List<T>): List<T> {
    if l.Some? && l.value == [] then None else l
  }

  function CopiedReference(r: SecretReference): SecretReference {
    r.(requiredKeys := Copied(r.requiredKeys))
  }

  function CopiedReferences(rs: seq<SecretReference>): (cs: seq<SecretReference>)
    ensures |cs| == |rs| && forall i :: 0 <= i < |rs| ==> cs[i] == CopiedReference(rs[i])
  {
    seq(|rs|, i requires 0 <= i < |rs| => CopiedReference(rs[i]))
  }

  function CopiedBundles(l: List<SecretReference>): List<SecretReference> {
    match Copied(l) case None => None case Some(rs) => Some(CopiedReferences(rs))
  }

  function CopiedCommand(c: Command): Command {
    c.(argv := Copied(c.argv))
  }

  function CopiedOptions(o: Options): Options {
    o.(volumes := Copied(o.volumes), secrets := Copied(o.secrets), secretBundles := CopiedBundles(o.secretBundles),
       networkAllow := Copied(o.networkAllow), networkDeny := Copied(o.networkDeny), presetOptions := Copied(o.presetOptions))
  }

  predicate GivenEmpty<T>(l: List<T>) {
    l.Some? && |l.value| == 0
  }

  predicate GivenNonEmpty<T>(l: List<T>) {
    l.Some? && |l.value| != 0
  }

  /** The options whose copy asks for the same sandbox: no list is given empty, except that
      an empty list of secrets or bundles does not matter beside a nonempty one of the other. */
  predicate CopiesFaithfully(o: Options) {
    && !GivenEmpty(o.volumes) && !GivenEmpty(o.networkAllow) && !GivenEmpty(o.networkDeny) && !GivenEmpty(o.presetOptions)
    && (GivenEmpty(o.secrets) || GivenEmpty(o.secretBundles) ==> GivenNonEmpty(o.secrets) || GivenNonEmpty(o.secretBundles))
  }

  lemma SecretsCopy(o: Options)
    ensures CreateField(CopiedOptions(o), Secrets) == CreateField(o, Secrets) <==>
      (GivenEmpty(o.secrets) || GivenEmpty(o.secretBundles) ==> GivenNonEmpty(o.secrets) || GivenNonEmpty(o.secretBundles))
  {
    var c := CopiedOptions(o);
    assert Elements(c.secrets) == Elements(o.secrets);
    if o.secretBundles.Some? && o.secretBundles.value != [] {
      assert BundleList(c.secretBundles.value) == BundleList(o.secretBundles.value);
    } else if o.secretBundles.Some? {
      assert WordList(Elements(o.secrets)) + BundleList([]) == WordList(Elements(o.secrets));
    }
  }

  lemma NetworkCopy(o: Options)
    ensures CreateField(CopiedOptions(o), Network) == CreateField(o, Network) <==>
      !GivenEmpty(o.networkAllow) && !GivenEmpty(o.networkDeny) && !GivenEmpty(o.presetOptions)
  {
    var c := CopiedOptions(o);
    var before, after := NetworkOf(o), NetworkOf(c);
    assert GivenEmpty(o.networkAllow) ==> Allow in before && Allow !in after;
    assert GivenEmpty(o.networkDeny) ==> Deny in before && Deny !in after;
    assert GivenEmpty(o.presetOptions) ==> PresetOptions in before && PresetOptions !in after;
    if !GivenEmpty(o.networkAllow) && !GivenEmpty(o.networkDeny) && !GivenEmpty(o.presetOptions) {
      assert c.networkAllow == o.networkAllow && c.networkDeny == o.networkDeny && c.presetOptions == o.presetOptions;
      assert forall k :: NetworkField(c, k) == NetworkField(o, k);
      assert before == after;
    }
  }

  /** Copying options preserves what a create request sends, exactly when they copy
      faithfully; maps need no condition. */
  lemma CopyPreservesCreate(o: Options)
    ensures (forall k :: CreateField(CopiedOptions(o), k) == CreateField(o, k)) <==> CopiesFaithfully(o)
  {
    SecretsCopy(o);
    NetworkCopy(o);
    var c := CopiedOptions(o);
    assert CreateField(c, Volumes) == CreateField(o, Volumes) <==> !GivenEmpty(o.volumes);
    if CopiesFaithfully(o) {
      forall k ensures CreateField(c, k) == CreateField(o, k) {
      }
    }
  }

  /** The same for a run: the command's arguments are one more list. */
  lemma CopyPreservesRun(c: Command, o: Options)
    ensures (forall k :: RunField(CopiedCommand(c), CopiedOptions(o), k) == RunField(c, o, k)) <==>
      CopiesFaithfully(o) && (c.cmd != "" || !GivenEmpty(c.argv))
  {
    hide CreateField;
    CopyPreservesCreate(o);
    var c', o' := CopiedCommand(c), CopiedOptions(o);
    CreateKeys(o);
    CreateKeys(o');
    forall k ensures !IsRunKey(k) ==> RunField(c', o', k) == CreateField(o', k) && RunField(c, o, k) == CreateField(o, k) {
    }
    assert RunField(c', o', Argv) == RunField(c, o, Argv) <==> c.cmd != "" || !GivenEmpty(c.argv);
  }

  /** The body sent for copied options is the body sent for the originals exactly then. */
  lemma CopiedBodyExactly(body: Body, copied: Body, c: Command, o: Options)
    requires Shows(body, k => RunField(c, o, k))
    requires Shows(copied, k => RunField(CopiedCommand(c), CopiedOptions(o), k))
    ensures copied == body <==> CopiesFaithfully(o) && (c.cmd != "" || !GivenEmpty(c.argv))
  {
    hide RunField, CopiesFaithfully, CopiedOptions, CopiedCommand;
    CopyPreservesRun(c, o);
    var f: Key -> Option<Json> := k => RunField(c, o, k);
    var g: Key -> Option<Json> := k => RunField(CopiedCommand(c), CopiedOptions(o), k);
    ShowsOnce(copied, body, g, f);
    assert forall k :: f(k) == RunField(c, o, k);
    assert forall k :: g(k) == RunField(CopiedCommand(c), CopiedOptions(o), k);
    assert (forall k :: g(k) == f(k)) <==> forall k :: RunField(CopiedCommand(c), CopiedOptions(o), k) == RunField(c, o, k);
  }

  /** A copy of a copy is that copy. */
  lemma CopyTwice(c: Command, o: Options)
    ensures CopiedCommand(CopiedCommand(c)) == CopiedCommand(c)
    ensures CopiedOptions(CopiedOptions(o)) == CopiedOptions(o)
    ensures CopiedOptions(o).s == o.s && CopiedCommand(c).cmd == c.cmd
  {
    var b := CopiedBundles(o.secretBundles);
    if b.Some? {
      assert CopiedReferences(b.value) == b.value;
    }
  }

  // -------------------------------------------------------------------- overriding

  datatype Overrides = Overrides(
    invocationSecrets: Option<map<string, string>>, cwd: Option<string>, env: Option<map<string, string>>,
    stdin: Option<string>, timeoutMs: Option<int>, idempotencyKey: string)

  function OverriddenScalars(s: Scalars, v: Overrides): Scalars {
    s.(cwd := if v.cwd.Some? then v.cwd.value else s.cwd,
       stdin := if v.stdin.Some? then v.stdin.value else s.stdin,
       timeoutMs := if v.timeoutMs.Some? then v.timeoutMs.value else s.timeoutMs,
       invocationSecrets := v.invocationSecrets, idempotencyKey := v.idempotencyKey)
  }

  /** The options of one invocation. */
  function Overridden(o: Options, v: Overrides): Options {
    o.(s := OverriddenScalars(o.s, v), env := if v.env.Some? then v.env else o.env)
  }

  /** The keys an invocation may change. */
  predicate PerCall(k: Key) {
    k.Cwd? || k.Env? || k.Stdin? || k.TimeoutMs?
  }

  /** What a create request sends does not depend on how and as whom a command runs. */
  lemma CreateIgnores(o: Options, o': Options, k: Key)
    requires o' == o.(env := o'.env, s := o.s.(cwd := o'.s.cwd, stdin := o'.s.stdin, timeoutMs := o'.s.timeoutMs, user := o'.s.user, keepSandbox := o'.s.keepSandbox,
                                               invocationSecrets := o'.s.invocationSecrets, idempotencyKey := o'.s.idempotencyKey))
    ensures CreateField(o', k) == CreateField(o, k)
  {
    assert NetworkOf(o') == NetworkOf(o) by {
      assert forall n :: NetworkField(o', n) == NetworkField(o, n);
    }
    hide NetworkOf;
  }

  /** What an invocation supplies for a key, if anything: an empty working directory or
      input, or a zero timeout, clears the default. */
  function Supplied(v: Overrides, k: Key): Option<Option<Json>> {
    match k
    case Cwd => if v.cwd.Some? then Some(Given(v.cwd.value)) else None
    case Env => if v.env.Some? then Some(Some(Dictionary(v.env.value))) else None
    case Stdin => if v.stdin.Some? then Some(Given(v.stdin.value)) else None
    case TimeoutMs => if v.timeoutMs.Some? then Some(NonZero(v.timeoutMs.value)) else None
    case _ => None
  }

  lemma OverrideField(c: Command, o: Options, v: Overrides, k: Key)
    ensures RunField(c, Overridden(o, v), k) == Supplied(v, k).GetOr(RunField(c, o, k))
  {
    hide CreateField;
    CreateIgnores(o, Overridden(o, v), k);
  }

  /** An invocation changes at most its four keys, and those exactly as supplied. */
  lemma OverrideFrame(c: Command, o: Options, v: Overrides)
    ensures forall k :: RunField(c, Overridden(o, v), k) == Supplied(v, k).GetOr(RunField(c, o, k))
    ensures forall k :: !PerCall(k) ==> RunField(c, Overridden(o, v), k) == RunField(c, o, k)
  {
    hide RunField;
    forall k ensures RunField(c, Overridden(o, v), k) == Supplied(v, k).GetOr(RunField(c, o, k)) {
      OverrideField(c, o, v, k);
    }
  }

  /** What a function keeps of run options: all but what belongs to a single call. */
  function ReusablePart(o: Options): Options {
    o.(s := o.s.(keepSandbox := false, idempotencyKey := "", invocationSecrets := None))
  }

  /** A plain invocation sends all that a run with those options would have sent, but for
      keeping the sandbox. */
  lemma ReusableKeeps(c: Command, o: Options, k: Key)
    ensures RunField(c, ReusablePart(o), k) == if k.KeepSandbox? then None else RunField(c, o, k)
  {
    hide CreateField;
    CreateIgnores(o, ReusablePart(o), k);
  }

  /** What becomes of an invocation that was given these values and this key. */
  ghost predicate Becomes(r: Submission, values: Option<map<string, string>>, key: string) {
    && (r.Refused? <==> values.Some? && key != "")
    && (r.Private? <==> values.Some? && key == "")
    && (r.Private? ==> Some(r.values) == values)
    && (r.Submitted? <==> values.None?)
    && (r.Submitted? ==> r.key == key)
  }

  /** Private values given for an invocation are used, and only those: they are sent
      privately, or refused beside a key; without them the run is submitted under the key. */
  lemma OverridesDecide(r: Submission, c: Command, o: Options, v: Overrides)
    requires !o.s.keepSandbox && RunsAs(r, c, Overridden(o, v))
    ensures Becomes(r, v.invocationSecrets, v.idempotencyKey)
  {
    hide Shows;
  }

  /** A run on its own: a kept sandbox is refused beside private values as well. */
  lemma RunDecides(r: Submission, c: Command, o: Options)
    requires RunsAs(r, c, o)
    ensures r.Refused? <==> o.s.invocationSecrets.Some? && (o.s.keepSandbox || o.s.idempotencyKey != "")
    ensures !o.s.keepSandbox ==> Becomes(r, o.s.invocationSecrets, o.s.idempotencyKey)
    ensures o.s.invocationSecrets.None? ==> r.Submitted? && r.key == o.s.idempotencyKey
  {
    hide Shows;
  }

  // ------------------------------------------------------------- the exec defaults

  /** The exec options: where, with what and as whom a command runs. */
  predicate IsExecOption(k: Key) {
    k.Cwd? || k.Env? || k.Stdin? || k.TimeoutMs? || k.User?
  }

  /** What an exec request sends for them. */
  function ExecField(o: Options, k: Key): Option<Json> {
    match k
    case Cwd => Given(o.s.cwd)
    case Env => if o.env.Some? then Some(Dictionary(o.env.value)) else None
    case Stdin => Given(o.s.stdin)
    case TimeoutMs => NonZero(o.s.timeoutMs)
    case User => Given(o.s.user)
    case _ => None
  }

  /** Puts the exec options into a body; its other entries stay. */
  method AddExecOptions(given: Body, o: Options) returns (body: Body)
    ensures Shows(body, k => ExecField(o, k), given)
  {
    hide Filled, Shows;
    body := AddSurroundings(given, o);
    ghost var field := (k: Key) => ExecField(o, k);
    FillNext(body, field, TimeoutMs, given);
    if o.s.timeoutMs != 0 {
      body := body[TimeoutMs := Number(o.s.timeoutMs)];
    }
    FillNext(body, field, KeepSandbox, given);
    FillNext(body, field, User, given);
    if o.s.user != "" {
      body := body[User := Words(o.s.user)];
    }
    AllFilled(body, field, Rank(User) + 1, given);
  }

  method AddSurroundings(given: Body, o: Options) returns (body: Body)
    ensures Filled(body, k => ExecField(o, k), Rank(TimeoutMs), given)
  {
    hide Filled;
    body := given;
    ghost var field := (k: Key) => ExecField(o, k);
    NoneFilled(field, Rank(Cwd), given);
    FillNext(body, field, Cwd, given);
    if o.s.cwd != "" {
      body := body[Cwd := Words(o.s.cwd)];
    }
    FillNext(body, field, Env, given);
    if o.env.Some? {
      body := body[Env := Dictionary(o.env.value)];
    }
    FillNext(body, field, Stdin, given);
    if o.s.stdin != "" {
      body := body[Stdin := Words(o.s.stdin)];
    }
  }

  /** A run carries the exec defaults it was given, as an exec request does, exactly when
      no user is among them. */
  lemma ExecDefaultsReachRun(c: Command, o: Options)
    ensures (forall k :: IsExecOption(k) ==> RunField(c, o, k) == ExecField(o, k)) <==> o.s.user == ""
  {
    assert RunField(c, o, User) == None;
    assert ExecField(o, User) == None <==> o.s.user == "";
    assert forall k :: IsExecOption(k) && k != User ==> RunField(c, o, k) == ExecField(o, k);
  }

  /** The same options for another user. */
  function AsUser(o: Options, user: string): Options {
    o.(s := o.s.(user := user))
  }

  lemma UserChangesNoField(c: Command, o: Options, user: string, k: Key)
    ensures RunField(c, AsUser(o, user), k) == RunField(c, o, k)
  {
    hide CreateField;
    CreateIgnores(o, AsUser(o, user), k);
  }

  /** Whatever user the options name, the same run is sent. */
  lemma UserChangesNoRun(r: Submission, c: Command, o: Options, user: string)
    ensures RunsAs(r, c, AsUser(o, user)) <==> RunsAs(r, c, o)
  {
    hide RunField;
    forall k ensures RunField(c, AsUser(o, user), k) == RunField(c, o, k) {
      UserChangesNoField(c, o, user, k);
    }
  }
}
