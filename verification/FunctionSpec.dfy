/** A reusable function specification on the heap: its slices, maps and pointers are its
    own, whatever its callers do to theirs. */
module FunctionSpec {
  import opened Text
  import opened RunSpec

  // ------------------------------------------------------- what callers can share

  /** What a pointer to a value points to. */
  class Cell<T> {
    var v: T
    constructor (v: T)
      ensures this.v == v
    {
      this.v := v;
    }
  }

  /** A map is shared by everyone who holds it. */
  class StringMap {
    var m: map<string, string>
    constructor (m: map<string, string>)
      ensures this.m == m
    {
      this.m := m;
    }
  }

  /** A bundle reference as a struct: its key list is shared. */
  datatype Reference = Reference(name: string, nameSpace: string, requiredKeys: array?<string>)

  /** Run options as a struct: assignment copies the scalars and shares the rest. */
  datatype RunOptions = RunOptions(
    s: Scalars,
    networkProfile: Cell?<ProfileReference>, ttlSeconds: Cell?<int>, persist: Cell?<bool>,
    metadata: StringMap?, env: StringMap?,
    volumes: array?<VolumeMount>, secrets: array?<string>, secretBundles: array?<Reference>,
    networkAllow: array?<string>, networkDeny: array?<string>, presetOptions: array?<string>)

  datatype Argument = Argument(cmd: string, argv: array?<string>)

  // ------------------------------------------------------------- what they mean

  function ListOf<T>(a: array?<T>): List<T>
    reads a
  {
    if a == null then None else Some(a[..])
  }

  function Pointed<T>(c: Cell?<T>): Option<T>
    reads c
  {
    if c == null then None else Some(c.v)
  }

  function MapOf(m: StringMap?): Option<map<string, string>>
    reads m
  {
    if m == null then None else Some(m.m)
  }

  function KeyLists(rs: seq<Reference>): set<object> {
    set r | r in rs && r.requiredKeys != null :: r.requiredKeys
  }

  function ReferenceOf(r: Reference): SecretReference
    reads r.requiredKeys
  {
    SecretReference(r.name, r.nameSpace, ListOf(r.requiredKeys))
  }

  function ReferencesOf(rs: seq<Reference>): (vs: seq<SecretReference>)
    reads KeyLists(rs)
    ensures |vs| == |rs| && forall i :: 0 <= i < |rs| ==> vs[i] == ReferenceOf(rs[i])
  {
    if rs == [] then [] else
      assert rs[0] in rs && forall r :: r in rs[1..] ==> r in rs;
      [ReferenceOf(rs[0])] + ReferencesOf(rs[1..])
  }

  function BundleObjects(a: array?<Reference>): set<object>
    reads a
  {
    if a == null then {} else {a} + KeyLists(a[..])
  }

  function BundlesOf(a: array?<Reference>): List<SecretReference>
    reads a, BundleObjects(a)
  {
    if a == null then None else Some(ReferencesOf(a[..]))
  }

  function Only(o: object?): set<object> {
    if o == null then {} else {o}
  }

  function PointerObjects(profile: Cell?<ProfileReference>, ttl: Cell?<int>, persist: Cell?<bool>, metadata: StringMap?, env: StringMap?): set<object> {
    Only(profile) + Only(ttl) + Only(persist) + Only(metadata) + Only(env)
  }

  function StorageObjects(volumes: array?<VolumeMount>, secrets: array?<string>, bundles: array?<Reference>): set<object>
    reads bundles
  {
    Only(volumes) + Only(secrets) + BundleObjects(bundles)
  }

  function NetworkObjects(allow: array?<string>, deny: array?<string>, presets: array?<string>): set<object> {
    Only(allow) + Only(deny) + Only(presets)
  }

  /** Every object behind the options. */
  function Objects(o: RunOptions): set<object>
    reads o.secretBundles
  {
    PointerObjects(o.networkProfile, o.ttlSeconds, o.persist, o.metadata, o.env)
    + StorageObjects(o.volumes, o.secrets, o.secretBundles)
    + NetworkObjects(o.networkAllow, o.networkDeny, o.presetOptions)
  }

  /** The options as a value. */
  function Meaning(o: RunOptions): Options
    reads o.secretBundles, Objects(o)
  {
    Options(o.s, Pointed(o.networkProfile), Pointed(o.ttlSeconds), Pointed(o.persist), MapOf(o.metadata), MapOf(o.env),
            ListOf(o.volumes), ListOf(o.secrets), BundlesOf(o.secretBundles),
            ListOf(o.networkAllow), ListOf(o.networkDeny), ListOf(o.presetOptions))
  }

  function CommandOf(c: Argument): Command
    reads c.argv
  {
    Command(c.cmd, ListOf(c.argv))
  }

  // --------------------------------------------------------------------- copying

  method CloneList<T(0)>(a: array?<T>) returns (r: array?<T>)
    ensures r == null || fresh(r)
    ensures ListOf(r) == Copied(ListOf(a))
  {
    if a == null || a.Length == 0 {
      return null;
    }
    r := new T[a.Length];
    for i := 0 to a.Length
      invariant r[..i] == a[..i]
    {
      r[i] := a[i];
    }
    assert r[..] == r[..a.Length] && a[..] == a[..a.Length];
  }

  method CloneStringMap(m: StringMap?) returns (r: StringMap?)
    ensures r == null || fresh(r)
    ensures MapOf(r) == MapOf(m)
  {
    r := null;
    if m != null {
      r := new StringMap(m.m);
    }
  }

  method CloneCell<T>(c: Cell?<T>) returns (r: Cell?<T>)
    ensures r == null || fresh(r)
    ensures Pointed(r) == Pointed(c)
  {
    r := null;
    if c != null {
      r := new Cell(c.v);
    }
  }

  /** The list of references is copied, and then every key list in the copy. */
  method CloneBundles(a: array?<Reference>) returns (r: array?<Reference>)
    ensures fresh(BundleObjects(r))
    ensures BundlesOf(r) == CopiedBundles(old(BundlesOf(a)))
  {
    if a == null || a.Length == 0 {
      return null;
    }
    var n := a.Length;
    var copies: seq<Reference> := [];
    for i := 0 to n
      invariant |copies| == i
      invariant forall j :: 0 <= j < i && copies[j].requiredKeys != null ==> fresh(copies[j].requiredKeys)
      invariant forall j :: 0 <= j < i ==> ReferenceOf(copies[j]) == CopiedReference(old(ReferenceOf(a[j])))
    {
      var keys := CloneList(a[i].requiredKeys);
      copies := copies + [Reference(a[i].name, a[i].nameSpace, keys)];
    }
    r := new Reference[n](i requires 0 <= i < n => copies[i]);
    assert r[..] == copies;
    assert fresh(KeyLists(copies));
    assert ReferencesOf(r[..]) == CopiedReferences(old(ReferencesOf(a[..])));
  }

  method CloneCommand(c: Argument) returns (r: Argument)
    ensures r.argv == null || fresh(r.argv)
    ensures CommandOf(r) == CopiedCommand(CommandOf(c))
  {
    var argv := CloneList(c.argv);
    r := Argument(c.cmd, argv);
  }

  method CloneNetwork(o: RunOptions) returns (allow: array?<string>, deny: array?<string>, presets: array?<string>)
    ensures fresh(NetworkObjects(allow, deny, presets))
    ensures ListOf(allow) == Copied(old(ListOf(o.networkAllow)))
    ensures ListOf(deny) == Copied(old(ListOf(o.networkDeny)))
    ensures ListOf(presets) == Copied(old(ListOf(o.presetOptions)))
  {
    hide Copied;
    allow := CloneList(o.networkAllow);
    deny := CloneList(o.networkDeny);
    presets := CloneList(o.presetOptions);
  }

  method CloneStorage(o: RunOptions) returns (volumes: array?<VolumeMount>, secrets: array?<string>, bundles: array?<Reference>)
    ensures fresh(StorageObjects(volumes, secrets, bundles))
    ensures ListOf(volumes) == Copied(old(ListOf(o.volumes)))
    ensures ListOf(secrets) == Copied(old(ListOf(o.secrets)))
    ensures BundlesOf(bundles) == CopiedBundles(old(BundlesOf(o.secretBundles)))
  {
    hide Copied, CopiedBundles, BundlesOf, BundleObjects;
    bundles := CloneBundles(o.secretBundles);
    label copied:
    secrets := CloneList(o.secrets);
    volumes := CloneList(o.volumes);
    BundlesUndisturbed@copied(bundles);
  }

  method ClonePointers(o: RunOptions)
    returns (profile: Cell?<ProfileReference>, ttl: Cell?<int>, persist: Cell?<bool>, metadata: StringMap?, env: StringMap?)
    ensures fresh(PointerObjects(profile, ttl, persist, metadata, env))
    ensures Pointed(profile) == old(Pointed(o.networkProfile)) && Pointed(ttl) == old(Pointed(o.ttlSeconds))
    ensures Pointed(persist) == old(Pointed(o.persist))
    ensures MapOf(metadata) == old(MapOf(o.metadata)) && MapOf(env) == old(MapOf(o.env))
  {
    metadata := CloneStringMap(o.metadata);
    env := CloneStringMap(o.env);
    profile := CloneCell(o.networkProfile);
    ttl := CloneCell(o.ttlSeconds);
    persist := CloneCell(o.persist);
  }

  /** The copy shares nothing with the original, nested key lists included, and means the
      copied options. */
  method CloneRunOnceOptions(o: RunOptions) returns (r: RunOptions)
    ensures fresh(Objects(r))
    ensures Meaning(r) == CopiedOptions(old(Meaning(o)))
  {
    hide Copied, CopiedBundles, ListOf, MapOf, Pointed, BundlesOf, BundleObjects, PointerObjects, NetworkObjects;
    var volumes, secrets, bundles := CloneStorage(o);
    label copied:
    var profile, ttl, persist, metadata, env := ClonePointers(o);
    var allow, deny, presets := CloneNetwork(o);
    BundlesUndisturbed@copied(bundles);
    r := RunOptions(o.s, profile, ttl, persist, metadata, env, volumes, secrets, bundles, allow, deny, presets);
  }

  method CloneBoth(c: Argument, o: RunOptions) returns (c': Argument, o': RunOptions)
    ensures fresh(Only(c'.argv)) && fresh(Objects(o'))
    ensures CommandOf(c') == CopiedCommand(old(CommandOf(c)))
    ensures Meaning(o') == CopiedOptions(old(Meaning(o)))
  {
    hide CopiedCommand, CopiedOptions, Meaning, Objects;
    o' := CloneRunOnceOptions(o);
    label copied:
    c' := CloneCommand(c);
    Undisturbed@copied(o');
  }

  twostate lemma BundlesUndisturbed(a: array?<Reference>)
    requires forall x :: x in old(BundleObjects(a)) && old(allocated(x)) ==> unchanged(x)
    ensures BundleObjects(a) == old(BundleObjects(a)) && BundlesOf(a) == old(BundlesOf(a))
  {
  }

  /** Options mean the same as long as none of their objects changes. */
  twostate lemma Undisturbed(o: RunOptions)
    requires forall x :: x in old(Objects(o)) && old(allocated(x)) ==> unchanged(x)
    ensures Objects(o) == old(Objects(o)) && Meaning(o) == old(Meaning(o))
  {
    hide BundleObjects, BundlesOf;
    assert old(BundleObjects(o.secretBundles)) <= old(Objects(o));
    BundlesUndisturbed(o.secretBundles);
  }

  // ----------------------------------------------------------------- the function

  /** Function options have no place for what belongs to one call. */
  function Reusable(o: RunOptions): RunOptions {
    o.(s := o.s.(keepSandbox := false, idempotencyKey := "", invocationSecrets := None))
  }

  /** The inputs of one call, as a struct of pointers. */
  datatype CallOverrides = CallOverrides(
    invocationSecrets: Option<map<string, string>>, cwd: Cell?<string>, env: StringMap?,
    stdin: Cell?<string>, timeoutMs: Cell?<int>, idempotencyKey: string)

  function OverridesOf(v: CallOverrides): Overrides
    reads v.cwd, v.env, v.stdin, v.timeoutMs
  {
    Overrides(v.invocationSecrets, Pointed(v.cwd), MapOf(v.env), Pointed(v.stdin), Pointed(v.timeoutMs), v.idempotencyKey)
  }

  ghost predicate Settled(c: Command, o: Options) {
    && CopiedCommand(c) == c && CopiedOptions(o) == o
    && !o.s.keepSandbox && o.s.idempotencyKey == "" && o.s.invocationSecrets.None?
  }

  lemma CopiesSettle(c: Command, o: Options)
    requires !o.s.keepSandbox && o.s.idempotencyKey == "" && o.s.invocationSecrets.None?
    ensures Settled(CopiedCommand(c), CopiedOptions(o))
  {
    CopyTwice(c, o);
  }

  class Function {
    var command: Argument
    var options: RunOptions

    ghost function Repr(): set<object>
      reads this, options.secretBundles
    {
      {this} + Only(command.argv) + Objects(options)
    }

    ghost function CommandSpec(): Command
      reads this, command.argv
    {
      CommandOf(command)
    }

    ghost function OptionsSpec(): Options
      reads this, options.secretBundles, Repr()
    {
      Meaning(options)
    }

    /** The specification is a copy already, and holds nothing of a single call. */
    ghost predicate Valid()
      reads this, options.secretBundles, Repr()
    {
      Settled(CommandSpec(), OptionsSpec())
    }

    constructor (c: Argument, o: RunOptions)
      ensures Valid() && fresh(Repr())
      ensures CommandSpec() == CopiedCommand(old(CommandOf(c)))
      ensures OptionsSpec() == CopiedOptions(ReusablePart(old(Meaning(o))))
    {
      hide CopiedCommand, CopiedOptions, Meaning, Objects, Settled, CommandOf, Reusable;
      ReusableSettles(c, o);
      var line, given := CloneBoth(c, Reusable(o));
      label copied:
      command, options := line, given;
      new;
      Undisturbed@copied(given);
    }

    /** Sends the specification as it is; it stays as it is. */
    method Invoke() returns (r: Submission)
      requires Valid()
      ensures RunsAs(r, old(CommandSpec()), old(OptionsSpec()))
      ensures Becomes(r, None, "")
    {
      hide CopiedCommand, CopiedOptions, RunsAs, Meaning, Objects, Becomes;
      var c, o := CloneBoth(command, options);
      r := RunOnce(CommandOf(c), Meaning(o));
      RunDecides(r, old(CommandSpec()), old(OptionsSpec()));
    }

    /** Sends the specification with the inputs of this call on top. */
    method InvokeWith(v: CallOverrides) returns (r: Submission)
      requires Valid()
      ensures RunsAs(r, old(CommandSpec()), Overridden(old(OptionsSpec()), old(OverridesOf(v))))
      ensures Becomes(r, v.invocationSecrets, v.idempotencyKey)
    {
      hide CopiedCommand, CopiedOptions, RunsAs, Meaning, Objects, Overridden, Becomes;
      var c, o := CloneBoth(command, options);
      o := Apply(o, v);
      r := RunOnce(CommandOf(c), Meaning(o));
      OverridesDecide(r, old(CommandSpec()), old(OptionsSpec()), old(OverridesOf(v)));
    }
  }

  /** Copies of reusable options are a settled specification. */
  lemma ReusableSettles(c: Argument, o: RunOptions)
    ensures Settled(CopiedCommand(CommandOf(c)), CopiedOptions(Meaning(Reusable(o))))
    ensures Meaning(Reusable(o)) == ReusablePart(Meaning(o))
  {
    hide CopiedCommand, CopiedOptions, Settled;
    CopiesSettle(CommandOf(c), Meaning(Reusable(o)));
  }

  method ApplyScalars(given: Scalars, v: CallOverrides) returns (s: Scalars)
    ensures s == OverriddenScalars(given, old(OverridesOf(v)))
  {
    s := given;
    if v.cwd != null {
      s := s.(cwd := v.cwd.v);
    }
    if v.stdin != null {
      s := s.(stdin := v.stdin.v);
    }
    if v.timeoutMs != null {
      s := s.(timeoutMs := v.timeoutMs.v);
    }
    s := s.(invocationSecrets := v.invocationSecrets, idempotencyKey := v.idempotencyKey);
  }

  /** Puts the inputs of one call on top of copied options. */
  method Apply(copied: RunOptions, v: CallOverrides) returns (o: RunOptions)
    ensures Meaning(o) == Overridden(old(Meaning(copied)), old(OverridesOf(v)))
  {
    hide BundlesOf, BundleObjects, OverriddenScalars;
    var s := ApplyScalars(copied.s, v);
    var env := copied.env;
    if v.env != null {
      env := CloneStringMap(v.env);
    }
    BundlesUndisturbed(copied.secretBundles);
    o := copied.(s := s, env := env);
  }
}
