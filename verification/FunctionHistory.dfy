/** What callers can do to a function specification over any history: nothing. */
module FunctionHistory {
  import opened Text
  import opened RunSpec
  import opened FunctionSpec

  /** What a caller may do between and with invocations: write through any slice, map or
      pointer it holds, or invoke the function. */
  datatype Action =
    | SetWord(words: array<string>, i: nat, word: string)
    | SetVolume(volumes: array<VolumeMount>, i: nat, volume: VolumeMount)
    | SetReference(references: array<Reference>, i: nat, reference: Reference)
    | SetMap(strings: StringMap, m: map<string, string>)
    | SetProfile(profile: Cell<ProfileReference>, p: ProfileReference)
    | SetNumber(number: Cell<int>, n: int)
    | SetFlag(flag: Cell<bool>, b: bool)
    | SetText(text: Cell<string>, t: string)
    | Invoke
    | InvokeWith(v: CallOverrides)

  function Target(a: Action): set<object> {
    match a
    case SetWord(words, _, _) => {words}
    case SetVolume(volumes, _, _) => {volumes}
    case SetReference(references, _, _) => {references}
    case SetMap(strings, _) => {strings}
    case SetProfile(profile, _) => {profile}
    case SetNumber(number, _) => {number}
    case SetFlag(flag, _) => {flag}
    case SetText(text, _) => {text}
    case _ => {}
  }

  function Targets(actions: seq<Action>): set<object> {
    if actions == [] then {} else Targets(actions[..|actions| - 1]) + Target(actions[|actions| - 1])
  }

  lemma {:induction false} TargetAmongTargets(actions: seq<Action>, i: nat)
    requires i < |actions|
    ensures Target(actions[i]) <= Targets(actions)
  {
    if i < |actions| - 1 {
      TargetAmongTargets(actions[..|actions| - 1], i);
      assert actions[..|actions| - 1][i] == actions[i];
    }
  }

  lemma {:induction false} TargetsAreAllocated(actions: seq<Action>)
    ensures forall x :: x in Targets(actions) ==> allocated(x)
  {
    if actions != [] {
      TargetsAreAllocated(actions[..|actions| - 1]);
    }
  }

  /** What a write leaves behind the pointers of overrides that meant `w`. */
  ghost function AfterWrite(a: Action, v: CallOverrides, w: Overrides): Overrides {
    match a
    case SetText(text, t) => w.(cwd := if v.cwd == text then Some(t) else w.cwd, stdin := if v.stdin == text then Some(t) else w.stdin)
    case SetMap(strings, m) => w.(env := if v.env == strings then Some(m) else w.env)
    case SetNumber(number, n) => w.(timeoutMs := if v.timeoutMs == number then Some(n) else w.timeoutMs)
    case _ => w
  }

  /** A write; one past the end of a slice does nothing here. */
  method Write(a: Action)
    requires !a.Invoke? && !a.InvokeWith?
    modifies Target(a)
    ensures forall v: CallOverrides :: old(allocated(v)) ==> OverridesOf(v) == AfterWrite(a, v, old(OverridesOf(v)))
  {
    match a
    case SetWord(words, i, word) => if i < words.Length { words[i] := word; }
    case SetVolume(volumes, i, volume) => if i < volumes.Length { volumes[i] := volume; }
    case SetReference(references, i, reference) => if i < references.Length { references[i] := reference; }
    case SetMap(strings, m) => strings.m := m;
    case SetProfile(profile, p) => profile.v := p;
    case SetNumber(number, n) => number.v := n;
    case SetFlag(flag, b) => flag.v := b;
    case SetText(text, t) => text.v := t;
    case _ =>
  }

  /** What overrides that meant `w` at first mean after the first `k` actions. */
  ghost function OverridesAfter(actions: seq<Action>, k: nat, v: CallOverrides, w: Overrides): Overrides
    requires k <= |actions|
  {
    if k == 0 then w else AfterWrite(actions[k - 1], v, OverridesAfter(actions, k - 1, v, w))
  }

  /** What the k-th action of a history sent: nothing if it was a write; the defined run if
      it was an invocation; and under the overrides `w` if it was one with overrides. */
  ghost predicate SentBy(a: Action, sent: Option<Submission>, c: Command, o: Options, w: Overrides) {
    match a
    case Invoke => sent.Some? && RunsAs(sent.value, c, o)
    case InvokeWith(_) => sent.Some? && RunsAs(sent.value, c, Overridden(o, w))
    case _ => sent.None?
  }

  /** Each invocation was refused, sent privately or submitted by what it was itself given. */
  ghost predicate Treated(a: Action, sent: Option<Submission>) {
    match a
    case Invoke => sent.Some? && Becomes(sent.value, None, "")
    case InvokeWith(v) => sent.Some? && Becomes(sent.value, v.invocationSecrets, v.idempotencyKey)
    case _ => sent.None?
  }

  ghost function CallOf(a: Action): CallOverrides {
    if a.InvokeWith? then a.v else CallOverrides(None, null, null, null, null, "")
  }

  /** Overrides that no earlier action wrote through mean what they meant at first. */
  lemma {:induction false} UntouchedOverrides(actions: seq<Action>, k: nat, v: CallOverrides, w: Overrides)
    requires k <= |actions|
    requires forall x :: x in Targets(actions[..k]) ==> x != v.cwd && x != v.env && x != v.stdin && x != v.timeoutMs
    ensures OverridesAfter(actions, k, v, w) == w
  {
    if k > 0 {
      assert actions[..k][..k - 1] == actions[..k - 1];
      TargetAmongTargets(actions[..k], k - 1);
      UntouchedOverrides(actions, k - 1, v, w);
    }
  }

  /** A function with these objects and this meaning. */
  ghost predicate Keeps(f: Function, objects: set<object>, c: Command, o: Options)
    reads f, f.options.secretBundles, f.Repr()
  {
    f.Valid() && f.Repr() == objects && f.CommandSpec() == c && f.OptionsSpec() == o
  }

  /** One action, on or beside a function that holds none of the action's objects. */
  method Perform(f: Function, a: Action, ghost objects: set<object>, ghost c: Command, ghost o: Options)
    returns (outcome: Option<Submission>)
    requires Keeps(f, objects, c, o) && objects !! Target(a)
    modifies Target(a)
    ensures Keeps(f, objects, c, o)
    ensures SentBy(a, outcome, c, o, old(OverridesOf(CallOf(a)))) && Treated(a, outcome)
    ensures forall v: CallOverrides :: old(allocated(v)) ==> OverridesOf(v) == AfterWrite(a, v, old(OverridesOf(v)))
  {
    hide RunsAs, Settled, CommandOf, Meaning, Objects, Overridden, Becomes;
    outcome := None;
    if a.Invoke? {
      var r := f.Invoke();
      outcome := Some(r);
    } else if a.InvokeWith? {
      var r := f.InvokeWith(a.v);
      outcome := Some(r);
    } else {
      Write(a);
    }
    Same(f);
  }

  /** What was sent so far. */
  ghost predicate AllSentBy(actions: seq<Action>, sent: seq<Option<Submission>>, c: Command, o: Options, first: seq<Overrides>)
    requires |sent| <= |actions| == |first|
  {
    forall k :: 0 <= k < |sent| ==> SentBy(actions[k], sent[k], c, o, OverridesAfter(actions, k, CallOf(actions[k]), first[k]))
  }

  lemma NothingSent(actions: seq<Action>, c: Command, o: Options, first: seq<Overrides>)
    requires |actions| == |first|
    ensures AllSentBy(actions, [], c, o, first)
  {
  }

  lemma SentMore(actions: seq<Action>, sent: seq<Option<Submission>>, outcome: Option<Submission>, c: Command, o: Options, first: seq<Overrides>)
    requires |sent| < |actions| == |first| && AllSentBy(actions, sent, c, o, first)
    requires var k := |sent|; SentBy(actions[k], outcome, c, o, OverridesAfter(actions, k, CallOf(actions[k]), first[k]))
    ensures AllSentBy(actions, sent + [outcome], c, o, first)
  {
    hide SentBy;
  }

  ghost predicate AllTreated(actions: seq<Action>, sent: seq<Option<Submission>>) {
    |sent| <= |actions| && forall k :: 0 <= k < |sent| ==> Treated(actions[k], sent[k])
  }

  lemma NothingTreated(actions: seq<Action>)
    ensures AllTreated(actions, [])
  {
  }

  lemma TreatedMore(actions: seq<Action>, sent: seq<Option<Submission>>, outcome: Option<Submission>)
    requires |sent| < |actions| && AllTreated(actions, sent) && Treated(actions[|sent|], outcome)
    ensures AllTreated(actions, sent + [outcome])
  {
    hide Treated;
  }

  ghost function Pointers(v: CallOverrides): set<object?> {
    {v.cwd, v.env, v.stdin, v.timeoutMs}
  }

  ghost function AllPointers(actions: seq<Action>): set<object?> {
    if actions == [] then {} else AllPointers(actions[..|actions| - 1]) + Pointers(CallOf(actions[|actions| - 1]))
  }

  /** The overrides of all invocations, as they are now. */
  ghost function AllNow(actions: seq<Action>): (all: seq<Overrides>)
    reads AllPointers(actions)
    ensures |all| == |actions| && forall k :: 0 <= k < |actions| ==> all[k] == OverridesOf(CallOf(actions[k]))
  {
    if actions == [] then [] else
      var init, a := actions[..|actions| - 1], actions[|actions| - 1];
      AllNow(init) + [OverridesOf(CallOf(a))]
  }

  /** Plays a history on a function that holds none of its objects. */
  method Play(f: Function, actions: seq<Action>, ghost objects: set<object>, ghost c: Command, ghost o: Options)
    returns (sent: seq<Option<Submission>>)
    requires Keeps(f, objects, c, o) && objects !! Targets(actions)
    modifies Targets(actions)
    ensures Keeps(f, objects, c, o)
    ensures |sent| == |actions| && AllSentBy(actions, sent, c, o, old(AllNow(actions)))
    ensures AllTreated(actions, sent)
  {
    hide Keeps, SentBy, AfterWrite, OverridesOf, AllNow, AllSentBy, Treated, AllTreated;
    ghost var first := AllNow(actions);
    sent := [];
    NothingSent(actions, c, o, first);
    NothingTreated(actions);
    for k := 0 to |actions|
      invariant |sent| == k && Keeps(f, objects, c, o)
      invariant forall j :: 0 <= j < |actions| ==> OverridesOf(CallOf(actions[j])) == OverridesAfter(actions, k, CallOf(actions[j]), first[j])
      invariant AllSentBy(actions, sent, c, o, first)
      invariant AllTreated(actions, sent)
    {
      TargetAmongTargets(actions, k);
      var outcome := Perform(f, actions[k], objects, c, o);
      SentMore(actions, sent, outcome, c, o, first);
      TreatedMore(actions, sent, outcome);
      sent := sent + [outcome];
    }
  }

  /** Defines a function from a caller's command and options, then plays any history of
      writes and invocations. Every invocation sends what was defined, as it was then,
      under the overrides of that invocation only, as they are at that moment. */
  method DefineAndPlay(command: Argument, options: RunOptions, actions: seq<Action>)
    returns (f: Function, sent: seq<Option<Submission>>)
    modifies Targets(actions)
    ensures |sent| == |actions|
    ensures f.Valid() && fresh(f.Repr())
    ensures f.CommandSpec() == CopiedCommand(old(CommandOf(command)))
    ensures f.OptionsSpec() == CopiedOptions(ReusablePart(old(Meaning(options))))
    ensures AllSentBy(actions, sent, CopiedCommand(old(CommandOf(command))), CopiedOptions(ReusablePart(old(Meaning(options)))),
                      old(AllNow(actions)))
    ensures AllTreated(actions, sent)
  {
    hide CopiedCommand, CopiedOptions, Settled, CommandOf, Meaning, Objects, AllSentBy, Treated, AllTreated;
    TargetsAreAllocated(actions);
    ghost var first := AllNow(actions);
    f := new Function(command, options);
    assert AllNow(actions) == first;
    sent := Play(f, actions, f.Repr(), f.CommandSpec(), f.OptionsSpec());
  }

  /** A function means the same as long as none of its objects changes. */
  twostate lemma Same(f: Function)
    requires forall x :: x in old(f.Repr()) && old(allocated(x)) ==> unchanged(x)
    ensures f.Repr() == old(f.Repr()) && f.CommandSpec() == old(f.CommandSpec()) && f.OptionsSpec() == old(f.OptionsSpec())
  {
    hide Meaning, Objects;
    assert f in old(f.Repr());
    Undisturbed(f.options);
  }

  /** Corollary of the frame of an override: without private values, an overridden run
      differs from a plain one of the same specification in at most the four keys of a call. */
  lemma InvocationsAgree(plain: Submission, overridden: Submission, c: Command, o: Options, w: Overrides, k: Key)
    requires o.s.invocationSecrets.None? && w.invocationSecrets.None? && !PerCall(k)
    requires RunsAs(plain, c, o) && RunsAs(overridden, c, Overridden(o, w))
    ensures k in plain.body <==> k in overridden.body
    ensures k in plain.body ==> plain.body[k] == overridden.body[k]
    ensures overridden.key == w.idempotencyKey
  {
    hide RunField;
    OverrideFrame(c, o, w);
  }
}
