# A verified model of the Mosaic Sandbox Go client

The Go client is mostly JSON plumbing, but some of it is small stateful algorithms that
have to be right: a retry loop, a second retry loop on top of it for releasing sandboxes,
an incremental decoder for event streams, chunked uploads, log following, reusable function
specifications, and a dotenv reader. This project models those parts in Dafny and proves
what they are for.

`dafny verify dfyconfig.toml` checks the whole project.

## How the model is built

- A Go string is a `string` whose characters are bytes.
- The outside world is an oracle. `Transport.Env` says what becomes of the n-th message (as
  a function of the service's state and the message), which sleeps are cut short, how the
  clock moves, which keys are generated, and what the platform makes of an out-of-range
  float conversion. `Transport.World` is what a run leaves behind: the service's state, the
  keys it has seen, the messages sent, the delays slept, the time. Every theorem is about
  all environments; what is assumed of a service is a named predicate
  (`Delivery.Honest`, `Lifecycle.TrustworthyDelete`, `Upload.FileService`,
  `Logs.LogService`), and what is assumed of a clock is `DestroyBounds.TrueClock`.
- Go values that are updated in place are classes (`ExecStream`, `Process`, `Function`,
  and the slices, maps and pointers a function specification is made of). Loops are loops;
  each is proved against a specification function, and the properties are lemmas about it.
- A read of the stream is one `Turn` of a script: the context has ended, or a read returns
  some bytes together with nothing, EOF or an error. A script that is over keeps reporting EOF.

## Main results

- **Decoder.** However the bytes are cut into reads, calling `Next` until it says no yields
  the events of the bytes; frames sent in any wording decode to the events meant; the events
  handed out are at every moment exactly those of the bytes taken out of the buffer. When the
  last read carries data together with EOF this fails in some cases, and
  `EagerEof.EagerEofExactly` says in exactly which; `EagerEof.FirstNoExactly` says exactly
  when the first no is then final. A stream that breaks off yields what was complete before
  the read that failed and reports the reason (`EventStream.BrokenStream`, `EventStream.Collect`).
- **Requests.** Every call comes to what its last attempt decides, and which failures lead to
  another attempt is spelled out by status and code (`Retries.CallsConclude`,
  `Retries.GetsThrough`). A request with a key, or one that is not replayed, takes effect at most
  once, and exactly once when it succeeds under no key or one the service has not seen; in
  any history that is so of every generated key, as long as generated keys are apart from
  all others (`Delivery.NewKeysRunOnce`). Without a key and with retries it is false of
  every replayed request (`Delivery.AtMostOnceExactly`). Idempotent operations end as if sent
  zero times or once. Keys are never shared between calls.
- **Release.** At most 9 attempts whatever the clock does, at most 8 under a true clock and
  6 without transport sleeps, at most 61 s of own sleeps (a true clock never goes back and
  advances by every delay slept to its end; a sleep cut short may take any time). Every ending is spelled out attempt by attempt
  (`Releases.ReleasesConclude`); nil comes exactly from a success or a 404, and means that the
  sandbox is gone.
- **Uploads and logs.** A successful upload leaves the content; a failed one leaves a prefix,
  possibly with the one chunk in flight. A handle's logs are one contiguous slice, and the end
  that `Wait` reports is the one the service told after the last page.
- **Functions.** No history of writes through the caller's slices, maps and pointers changes
  what a function sends, and each invocation sends its overrides as they are at that moment;
  copying options preserves the request body exactly when no list is given empty (with one
  exception, stated exactly). Private values given for an invocation are sent privately or
  refused, never dropped. Two plain invocations never share a key, and invoking again
  under one key does not run twice.
- **Private values.** The verdict on a map does not depend on the order of iteration, and is
  spelled out error by error, down to which bytes spell Unicode characters; accepted values
  survive dotenv text in any order and any mixture of quoting, with blanks, exports, comments
  and blank lines.

## Where code and documentation differ

- The repository's own README says that overrides carry only five inputs; `InvocationOverrides` has a sixth,
  the invocation secrets (sandbox.go:276-283), and the model has it too.
- `FunctionOptions` is described as the exec defaults every invocation runs with and has a
  `User` (sandbox.go:285-320), but a run request never sends the user (sandbox.go:225-244):
  the exec defaults reach a run if and only if no user is given
  (`RunSpec.ExecDefaultsReachRun`), and which user is given makes no difference
  (`RunSpec.UserChangesNoRun`).
- In dotenv text, a key `export` with a space before its equals sign is taken for the keyword
  and read as an empty key (invocation_secrets.go:86; `DotenvRoundTrip.ExportKeyIsLost`).
- A read that fails with anything but EOF is appended to the buffer before its error is
  looked at, and after the error the buffer is never read again (sandbox.go:940, 961-987): whole
  frames that arrive with the error are lost (`EventStream.BrokenStream`).
- `Function` is said to take a copy of the options; the copy of a list given empty is absent
  (sandbox.go:427-432), which can change what is asked for.
- `ExecStream` delivers an unterminated last frame and drops frames without a name, unlike
  sections 9.2.5 and 9.2.6 of the WHATWG HTML standard. The model follows the code.

## Model

| member | source | states |
|---|---|---|
| EventFormat.ParseSSE | sandbox.go:1003-1026 | the line loop computes the last event name and all data lines; a frame without a name is no event |
| EventFormat.Extend | sandbox.go:943-952 | bytes that arrive later only extend the unfinished frame: the frames complete so far, and their events, never change |
| EventFormat.SentIsUnderstood | sandbox.go:1003-1026 | for frames in any wording (blanks around a name or none, a space after the colon of a data line or none, other lines anywhere, the last name counting) reading gives back exactly the events meant |
| EventFormat.PrintedIsUnderstood | sandbox.go:1003-1026 | messages in the usual wording, read as one stream, give back the same names and data in order, all of them in whole frames |
| EventStream.ExecStream.Next | sandbox.go:939-989 | hands out exactly the next event of the decoder's future, keeps the conservation invariant, and says no only when nothing is left, on an error, or at EOF |
| EventStream.ExecStream.Turn | sandbox.go:953-988 | one turn of the read loop: what a cancelled context, a short read, an error and EOF each do to the events to come |
| EventStream.ExecStream.Finish | sandbox.go:966-983 | the EOF branch serves one more frame, or else the whole buffer as one frame |
| EventStream.TakeConserves | sandbox.go:944-951 | taking a frame keeps the law that bytes taken and bytes buffered are the bytes received, and events handed out are those of the bytes taken |
| EventStream.CuttingDoesNotMatter | sandbox.go:939-989 | with EOF reported on its own, every cutting of the same bytes into reads gives the events of the bytes |
| EventStream.Collect | sandbox.go:939-989 | calling Next until it says no terminates and yields exactly those events, without an error; an error is the reason of a turn that breaks the stream off, and a stream that breaks off always ends in that error |
| EventStream.FalseIsFinal | sandbox.go:939-942 | for such a body, once Next has said no nothing is ever pending again |
| EventStream.TidyFalseIsFinal | sandbox.go:939-989 | for such a body nothing is left after the first no, wherever decoding starts |
| EventStream.CollectTwice | sandbox.go:939-989 | for every script, a caller that goes on asking after the first no gets exactly the events left then |
| EventStream.WholeStream | sandbox.go:939-989 | at every moment the bytes taken, those buffered and those still to come are the whole stream, and the events handed out are those of the bytes taken |
| EventStream.BrokenStream | sandbox.go:961-987 | a stream that breaks off yields the frames completed before the failing read, and `Collect` then reports the reason; nothing received whole is lost exactly when that read completes no named frame |
| EventStream.FailingReadLosesMessages | sandbox.go:961-987 | however much came before, every whole message the failing read completes is missing from what is handed out |
| EventStream.LostWithTheError | sandbox.go:961-987 | a single read that brings any messages together with an error yields none of them |
| EventStream.RoundTrip | sandbox.go:939-1026 | send frames in any such wording, cut the bytes anywhere, decode: the events meant come back in order, and nothing else |
| EagerEof.EagerEofExactly | sandbox.go:965-983 | when the last read carries data and EOF, the events are those of the bytes if and only if the EOF branch is faithful on what it sees |
| EagerEof.MergeExactly | sandbox.go:976-980 | reading several frames as one is right exactly when none is named, or the only named frame is followed by no event line and the others add no data (or one empty line to none) |
| EagerEof.MergeLosesMessages | sandbox.go:966-980 | after a nameless frame, two or more messages in such a read yield at most one event |
| EagerEof.EofNoIsFinalExactly | sandbox.go:968-983 | a no of the EOF branch is final if and only if no frame of what stays in the buffer is named |
| EagerEof.FirstNoExactly | sandbox.go:939-989 | for every script whose last read carries data and EOF, the first no is final if and only if the EOF branch sees one unfinished frame, or a named first frame, or a remainder that is named as one frame or has no named frame |
| EagerEof.FalseNeedNotBeFinal | sandbox.go:968-983 | such a read can make Next say no while later calls still hand out every message |
| Routes.SandboxPostClassified | client.go:272-286 | for every escaped identifier, a sandbox POST is keyed exactly for fork, snapshots, previews and fanout, and replayed exactly for those and resume, with or without a query |
| Routes.FixedRoutesAreKeyed | client.go:285 | the five fixed routes are keyed, with or without a query |
| Routes.SnapshotPostClassified | client.go:285 | below a snapshot, a POST is keyed and replayed exactly for its replicas |
| Routes.OtherPostsClassified | client.go:276-286 | a POST that is neither below a sandbox nor below a snapshot is keyed and replayed exactly for the four collections, with or without a query |
| Routes.WritesAreNotReplayable | client.go:272-283 | PUT and DELETE on a sandbox's own routes are never replayed |
| Backoff.DelayIsIdeal | client.go:308-326 | up to attempt 35 the delay is the capped doubling raised to the capped request, within 250 ms and 8 s |
| Backoff.DelayBounds | client.go:308-326 | those bounds hold for every Retry-After value |
| Backoff.DelayMonotone | client.go:308-326 | a later attempt or a longer request never shortens the delay |
| Backoff.BoundsExactly | client.go:309-312 | under 64-bit wrap-around the bounds hold exactly outside a listed set of attempts that starts at 36; from 57 to 62 there is no delay; from 63 on the platform's conversion of the power decides, and how is stated |
| Transport.RequestInto | client.go:405-480 | the retry loop refines the recursive specification of a call, with its branches and error cases |
| Retries.CallsConclude | client.go:422-480 | every call has a last attempt, and comes to exactly what it decides: the failures tried again before it, what is reported of its outcome, and a cut sleep, all by literal status and code |
| Retries.EndsWith | client.go:422-480 | after k failures that are tried again the next outcome ends the call if it is none or the last retry, after exactly k + 1 messages |
| Retries.GetsThrough | client.go:434-478 | a replayed request whose first k messages are dropped, lost, torn or answered 429, 500, 502, 503, 504 or an in-flight code, and whose next succeeds, returns that answer after exactly k + 1 messages |
| Retries.FailureIsMet | client.go:422-480 | a failed call fails with what its last message came to, or with the cause that cut its last sleep |
| Retries.ReadsAreReplayed | client.go:272-283 | every GET and HEAD is replayed; of the other verbs only POST, and PUT under /v1/sandboxes, ever are |
| Delivery.AtMostOnce | client.go:422-479 | a message with a key, or one that is not replayed, takes effect at most once, exactly once when confirmed under a fresh key, and not at all after a final 429 on a route that is not replayed |
| Delivery.CallAtMostOnce | client.go:405-480 | the same for whole calls, including the generated key and its failure |
| Delivery.AtMostOnceExactly | client.go:434-463 | at most once in every environment if and only if the message has a key, is not replayed, or the client does not retry |
| Delivery.KeylessReplayCanRepeat | client.go:434-442 | a lost answer makes any replayed message without a key take effect twice |
| Delivery.IdempotentReplay | client.go:422-479 | an idempotent operation ends as if sent zero times or once |
| Delivery.KeylessCallOfIdempotent | client.go:405-480 | the same for a whole call without any key |
| Delivery.ReplayedWithoutKey | client.go:276-286 | getting or creating a sandbox and resuming one are replayed although they carry no key |
| Delivery.SandboxPostAtMostOnce | client.go:272-286 | every sandbox POST but resume takes effect at most once although the caller brings no key |
| Delivery.WireShape | client.go:422-463 | one call sends between 1 and retries + 1 copies of one message, sleeps at most retries times, and with up to 36 retries every sleep lies within 250 ms and 8 s |
| Delivery.KeysNeverShared | client.go:407-414 | over any history, two calls that bring no key never share one, and the key is never empty |
| Delivery.NewKeysRunOnce | client.go:405-480 | anywhere in a history, a call that generates its key, or brings a new one, is carried out exactly once if it succeeds, whatever was called before |
| Delivery.AnswerIsGenuine | client.go:471-478 | what a successful call returns is an answer the service gave, during that call, to that very message |
| Destroy.DestroySandbox | client.go:333-394 | the destroy loop refines the specification of a run; it terminates on its two budgets and never indexes outside the table |
| Releases.ReleasesConclude | client.go:333-394 | every release has a last round and comes to exactly the run that round says, by literal status, code, budget, pause and deadline |
| Releases.NilExactly | client.go:344-352 | a release ends in nil if and only if some attempt succeeds or is answered 404 |
| Destroy.Budgets | client.go:333-394 | for every clock: at most 9 attempts; one attempt more than sleeps unless the run ends in a sleep or, after one, past the deadline; and at most attempts times (retries + 1) messages |
| DestroyBounds.Bounds | client.go:289-294 | under a true clock at most 8 attempts, at most 6 without transport sleeps, and own sleeps of at most 61 s |
| DestroyBounds.RetriesStartInTime | client.go:340-342 | under a true clock no retry starts at or after the deadline, and any two attempts start at least a second apart |
| DestroyBounds.LastEntryEndsTheRun | client.go:289-294 | the 30 s entry is slept only by a run that slept exactly the table, and no attempt follows it |
| Lifecycle.NilMeansGone | client.go:344-352 | over every run, nil implies that the sandbox no longer exists |
| Lifecycle.WithSandbox | sandbox.go:454-472 | no release without a create, exactly one release after a create; nil implies that the callback succeeded and the sandbox is gone; a failed callback and a failed release are each reported, and together if both fail |
| Upload.WriteLandsOnce | sandbox.go:749-758 | one write reaches the disk once or not at all, and once if it succeeds |
| Upload.Write | sandbox.go:741-764 | on success the file is the content; on failure it is what it was, the landed prefix, or that prefix and the chunk in flight; other files are untouched; every message is a write of the content or of one chunk of it for the given path and user; the size is the service's answer or the bytes landed; a failure is what the last message came to |
| Logs.PageIsHonest | sandbox.go:868-873 | the page behind a successful call is a slice of the output from the offsets asked for, whatever was retried |
| Logs.Process.Logs | sandbox.go:868-876 | failed calls leave the offsets; all text handed out so far is the output up to the offsets, without gap or repeat |
| Logs.LogsPathIs | sandbox.go:869 | the path asks for both offsets under their names |
| Logs.Process.Wait | sandbox.go:888-933 | wherever waiting returns at all: it returns exactly the slice from where the handle was, the whole rest if "finished" reaches the end; the exit code and termination the service told after a page that said "finished", and the success and reason they mean; or the failure of its last message or sleep |
| Logs.EndingContextReturns | sandbox.go:888-903 | waiting returns under every context that ends |
| Logs.EndingProcessReturns | sandbox.go:888-903 | waiting returns, even under a context that never ends, if from some message on every page the service answers says "finished" |
| Logs.OffsetsAreInThePath | sandbox.go:869 | different offsets ask different questions |
| Secrets.NewInvocationSecrets | invocation_secrets.go:36-51 | for every order of iteration the verdict, and which error it is, is the order-free one |
| Secrets.TotalFrom | invocation_secrets.go:40-46 | the total size can be counted from any key |
| Verdicts.GoodExactly | invocation_secrets.go:42 | an entry is good if and only if its key is 1 to 64 letters, digits and underscores, no digit first and not reserved, and its value 1 to 32768 bytes of characters other than NUL |
| Verdicts.VerdictExactly | invocation_secrets.go:36-51 | when a map is accepted, when it is invalid, and when it is too large |
| Utf8.ValidExactly | invocation_secrets.go:42 | a text is valid if and only if it is the encoding of some Unicode characters |
| Secrets.AcceptedIsBounded | invocation_secrets.go:37-49 | corollary: acceptance implies every bound on keys, values, count and total |
| Dotenv.InvocationSecretsFromDotenv | invocation_secrets.go:74-111 | the line loop computes the meaning of the text: unreadable, malformed, or the verdict on the map collected |
| Verdicts.UnreadableExactly | invocation_secrets.go:75-78 | text is unreadable if and only if its source fails, it exceeds a mebibyte, or it is not UTF-8 |
| Utf8.LeadingExactly | invocation_secrets.go:82 | what is trimmed at the start of a text is exactly Unicode white space |
| Utf8.TrailingExactly | invocation_secrets.go:82 | and so at its end |
| Dotenv.GatherExactly | invocation_secrets.go:79-110 | collecting succeeds exactly when every line makes sense and no key comes twice, and then collects exactly what the lines say |
| DotenvRoundTrip.DotenvRoundTrips | invocation_secrets.go:81-110 | an accepted map, written in any order with each value in single quotes, as a JSON string or bare, with exports, comments, blank lines and blanks around equals signs and at line ends, reads back as itself |
| DotenvRoundTrip.LineReads | invocation_secrets.go:81-108 | each such line says what it was written for |
| DotenvRoundTrip.EmptyReads | invocation_secrets.go:87-108 | nothing after the equals sign is an empty value, not a malformed line |
| DotenvRoundTrip.BadValueIsNonsense | invocation_secrets.go:96-104 | a single quote left open or closed early, or a JSON string that does not decode, makes no sense, whatever blanks surround it |
| DotenvRoundTrip.NoEqualsIsNonsense | invocation_secrets.go:87-92 | nor does a line of text without an equals sign that is no comment |
| DotenvRoundTrip.NonsenseIsMalformed | invocation_secrets.go:79-108 | one line that makes no sense makes readable text malformed |
| DotenvRoundTrip.ExportKeyIsLost | invocation_secrets.go:86-89 | a key `export` with a space before its equals sign is always read as an empty key; it is the one exception to LineReads |
| DotenvRoundTrip.PlainRoundTrips | invocation_secrets.go:75-110 | its plain rendering always fits the input limit and reads back, in every order |
| DotenvRoundTrip.BareReads | invocation_secrets.go:106 | a bare value reads as it stands, with or without a comment after it |
| DotenvRoundTrip.RepeatedKeyIsRejected | invocation_secrets.go:93-95 | a text that says a key twice is never accepted |
| RunSpec.CreateBody | sandbox.go:23-101 | the body filled step by step holds, key by key, exactly what the options say |
| RunSpec.RunOnce | sandbox.go:225-259 | the run body, its key, and the refusal of private values beside a kept sandbox or a key |
| RunSpec.RunDecides | sandbox.go:245-259 | a run is refused exactly for private values beside a kept sandbox or a key, and otherwise sent privately or submitted under its key |
| Requests.ShapeSaid | sandbox.go:25-42 | without a snapshot the template base, 4096 MB and 2 CPUs are asked for unless told otherwise; with one, only what was told |
| Requests.IdentitySaid | sandbox.go:43-52 | SSH, network profile, name, key and region each appear under their own entry, and only when given |
| Requests.LifetimeSaid | sandbox.go:53-61 | lifetime, persistence and metadata are sent as given, zero, false and empty included |
| Requests.VolumesSaid | sandbox.go:62-64 | the volumes given, in order |
| Requests.SecretsSaid | sandbox.go:65-77 | plain secrets and bundles share one list, plain ones first, in order |
| Requests.NetworkSaid | sandbox.go:78-96 | a network policy is sent exactly when one of its lists or the preset is given, and each part is what its option says |
| Requests.NoCommandSaid | sandbox.go:23-101 | a create request says nothing about a command |
| Requests.CommandSaid | sandbox.go:225-229 | a command line comes before a list of arguments, and the user is never sent |
| Requests.DefaultsSaid | sandbox.go:230-244 | working directory, environment, input, timeout and keeping, each under its own entry |
| Requests.RunSaysCreate | sandbox.go:226 | a run says all that its create options say |
| RunSpec.CopyPreservesCreate | sandbox.go:396-443 | copying options preserves what a create request sends if and only if they copy faithfully |
| RunSpec.CopyPreservesRun | sandbox.go:391-443 | the same for a run, with the argument list as one more list |
| RunSpec.CopiedBodyExactly | sandbox.go:391-443 | the two bodies are equal if and only if that condition holds |
| RunSpec.CopyTwice | sandbox.go:366-368 | a copy of a copy is that copy, so every invocation sends what the definition took |
| RunSpec.OverrideFrame | sandbox.go:372-388 | overrides change at most cwd, env, stdin and timeout_ms, and those exactly as supplied, clearing included |
| RunSpec.OverridesDecide | sandbox.go:372-389 | private values of an invocation are refused beside a key, else sent privately, all of them and no others; without them the run is submitted under the given key |
| RunSpec.ReusableKeeps | sandbox.go:322-364 | a function keeps every run option but those of a single call |
| RunSpec.AddExecOptions | sandbox.go:502-518 | each exec option that is given is put into the body, the user included, and every other entry of the body stays |
| Requests.ExecSaid | sandbox.go:502-518 | the entries of an exec request, the user included |
| RunSpec.ExecDefaultsReachRun | sandbox.go:225-244 | a run carries the exec options as an exec request does if and only if no user is given |
| RunSpec.UserChangesNoRun | sandbox.go:225-259 | the same run is sent whatever user the options name |
| FunctionSpec.CloneBundles | sandbox.go:400-405 | the copied bundles, nested key lists included, are new objects with the copied meaning |
| FunctionSpec.CloneRunOnceOptions | sandbox.go:396-425 | the copied options share no object with the originals and mean the copied options |
| FunctionSpec.Function.constructor | sandbox.go:358-364 | a new function owns all its objects and means the copy of what it was given |
| FunctionSpec.Function.Invoke | sandbox.go:366-368 | sends the specification as it is and leaves it as it is |
| FunctionSpec.Function.InvokeWith | sandbox.go:372-389 | sends the specification under the overrides of this call, private values and key included, and leaves it as it is |
| FunctionHistory.DefineAndPlay | sandbox.go:356-389 | over any history of writes through shared objects and invocations, every invocation sends what was defined, under its own overrides exactly as they are at that moment; each is refused, private or submitted by what it was itself given |
| FunctionHistory.UntouchedOverrides | sandbox.go:372-389 | overrides that no earlier action wrote through are at that moment what they were at first |
| FunctionHistory.InvocationsAgree | sandbox.go:372-389 | corollary of RunSpec.OverrideFrame: an overridden and a plain invocation differ in at most the four keys of a call |
| Invocations.InvocationsAreSeparate | sandbox.go:255-259 | two plain invocations of one function anywhere in a history of calls never share a key, and each takes effect at most once, exactly once if it succeeds and generated keys are apart from all others |
| Invocations.SameKeyRunsOnce | README.md:73-74 | invoking again under the same key does not run a second time: both calls together take effect at most once, exactly once if either succeeds |

## Left out

- HTTP, TLS, redirects, endpoint checks, the private transport of `privateInvocation`, and the redaction and formatting of secrets and errors: library wiring and policy; outcomes are oracles.
- JSON and base64: an event is its name and its data text, an answer is already decoded, a write carries its bytes, and JSON-quoted dotenv values go through an abstract decoder.
- `apiError` beyond status, code and retry delay: message text, categories and hints are single-branch facts.
- NaN and infinite Retry-After values: delays are reals; finite out-of-range conversions are covered by an arbitrary platform value.
- Resource, profile, bundle and connection calls, cursor loops, and `New`'s environment precedence: thin wrappers.
- `ExecStream.Close`, and a body that is read after it was closed other than as the script says.
- Lifecycle.WithSandbox: the callback is a function of the world and does not panic; the 30 s limit of the cleanup context is one of the environments `cleanup` ranges over, and nothing is derived from it.
- Logs.Process.Wait: nothing is promised of a wait that never returns, where every poll succeeds without saying "finished" and no sleep is cut short; durations are not modelled.
- Logs.Process.Logs: a success without a body leaves zero offsets, as in the code; the honest service that the invariant assumes never sends one.
- FunctionSpec.CloneRunOnceOptions: a slice is a whole array, so two slices that overlap in one backing array are not modelled.
- FunctionHistory.DefineAndPlay: a write past the end of a slice does nothing instead of panicking.
- RunSpec.CreateBody: body keys are an enumeration instead of strings, and the fill is split into groups of fields.
- Whether a service ever recovers or a process ever finishes.
