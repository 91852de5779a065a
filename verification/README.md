# Holochain core logic in Dafny

A Dafny model of nine pieces of the Holochain Rust code base, with proofs of what each of them is for.
`dafny verify dfyconfig.toml` checks the whole project.

| files | component |
|---|---|
| `Wrappers` | the option type and distinctness that several components use |
| `Regex`, `Decimal`, `Period`, `PeriodRoundTrip`, `PeriodUnits`, `PeriodTimeout` | human-readable durations: printer, parser, conversion to a millisecond timeout |
| `ActionLoop`, `ActionRuns`, `ActionProgress` | the redux action loop of an instance, every interleaving of it with its clients, and what becomes of a call |
| `Waiter`, `WaiterTrace` | the test conductor's waiter, against a specification over the whole trace |
| `Toposort`, `Config`, `ConfigCheck` | conductor configuration: start order by bridges, consistency, removal of an instance |
| `Bundle`, `BundleRoundTrip` | packing a directory tree into one JSON object, and unpacking it |
| `SecretStore`, `SecretLaws`, `KeystoreCache`, `Keystore` | the keystore as a value, the laws of its runs, what its cache of decrypted secrets changes, and the keystore in place |
| `SecBuf`, `KeyBlob` | protected memory buffers and the byte layout of key blobs |
| `AttributeText`, `FilePath`, `Glob`, `EavStore`, `EavQuery`, `EavKeys`, `EavCuts`, `EavFileStorage` | the file-backed EAV store: attributes as directory names, paths, file name patterns, what adds leave on the disk, what queries find there, for which keys and after which interruptions it is right |
| `NetWorker` | the IPC network worker: readiness, configuration, bootstrapping |

**How the code's form is kept.** Code that updates things in place is a class or a method with loops
(`PeriodCodec.Fmt`, `LoopThread`, `WaiterTask`, `CheckConsistency`, `BundleRecurse`, `CachingKeystore`,
`Buffer`, `FileStorage`, `Worker`), each proved equal to a function of its old state; the properties are
lemmas about those functions. Code made of expressions is functions. The action loop is a state machine
over its atomic steps: reducing, publishing, signalling and notifying are separate, so clients may run
between any two of them.

**What stands for foreign code.** The regular expression of the period parser is run by a backtracking
matcher written here (leftmost, greedy, like the `regex` crate's semantics for this pattern). `petgraph`'s
`toposort` is replaced by a sort proved here to succeed exactly on acyclic graphs, so the wrapper's results
hold for any correct sort. Joining paths and matching file name patterns (the `glob` crate: `*`, `?`,
bracketed classes, `**` as a whole component, the entries `.` and `..` for patterns with a leading dot) are
written out. The four state reducers, base64, JSON, content
addresses and the sodium functions are parameters; where an inverse law is needed it is an explicit
hypothesis (`Bundle.Inverse`, `EavStore.Faithful`, `SecretLaws.Signs`, `SecretLaws.Codecs`). Encryption is symbolic: a ciphertext
is a passphrase with a plaintext, and a wrong passphrase gives a zeroed buffer. Clocks, random bytes and the
passphrase manager's answers, refusals included, are arguments.

**Findings.** Where a promised property does not hold of the code, the exact condition is proved:

- *Timeouts.* The cast to `usize` comes before the comparison. On a target where seconds do not fit in
  `usize` a long period can become a short timeout; the conversion saturates exactly when the truncated
  seconds fall in the right range (`TimeoutIsSaturated`, `TruncatedTimeout`). With 64 bits it always does.
- *Action loop.* Only a notify step empties the observer channel, and a finished call's observer stays in it.
  A hundred finished `block_on` calls keep the next `dispatch_action_and_wait` from registering, hence from
  dispatching; the loop thread can make room exactly when it has an action to work on (`RegisterExactly`,
  `JammedByFinishedCalls`).
- *Period grammar.* The comment on `Period` lists bare `u`, `μ` and `n` as accepted. After any number they are
  refused: exactly the continuations with the mark of the second are accepted (`BareLettersRefused`,
  `MicroContinuation`, `NanoContinuation`). The group before whole seconds is `(:?` and so takes a colon
  (`ColonAccepted`). The model follows the pattern.
- *Removing an instance.* The comment says the configuration stays valid; it does exactly when no bridge
  and no dpki entry mentions the instance (`RemovalConsistent`, `RemovalCanBreak`).
- *Repeated instance ids* make the bridge sort panic, exactly when it would otherwise have succeeded
  (`SortInstances`); the consistency check rules them out first.
- *Bundles.* A plain file without a usable config file beside it, and before any directory in the walk, is
  silently left out; a config key that is also a file name, or `__META__`, is lost. `RoundTrip` gives the
  condition, both ways.
- *Keystore.* The passphrase check before encryption is made and ignored, so one wrong answer leaves a blob
  under another passphrase (`UniformAfterAdd`). Changing the passphrase re-encrypts only the check text
  (`UniformAfterChange`). Storing a seed of another size than 32 bytes panics, and so
  does storing a key pair whose public half does not decode or whose private half overflows its blob, alone or
  as half of a bundle; nothing else does (`PanicsExactly`). A private key of another size that fits is stored
  and comes back cut or filled up (`IntactExactly`). An added secret is served from the cache whatever passphrase is given (`AddThenGet`); from
  the file it needs the passphrase of the add, and a key must have its size (`AddReloadGet`). Encrypting-key derivation passes its buffers in
  the wrong order: every derived encrypting key is the same (`EncryptingKeysCoincide`), and the cached source
  seed is overwritten, which later gets and derivations show (`EncryptingKeyBreaksCache`, `LaterGetDiffers`,
  `LaterSigningKeyDiffers`). The module comment claims a single logical passphrase; the model follows the code.
- *Secure buffers.* Cloning a locked secure buffer makes its page inaccessible while it is still recorded as
  readable; nothing else separates the two (`AgreesThroughout`).
- *EAV store.* A key is joined onto a path when it is written and used as a file name pattern when it is read.
  So a triple with the tag `x/` is found under the tag `x` (`SlashTagFound`), and a tag `*`, even of an add that
  was cut off, brings in triples with other tags (`TornStarVisible`). An entity `k/0/y.txt` makes a directory
  where a file is expected, and nothing is found under the entity `k` any more (`TxtEntityHides`). The entity `.*`
  is lost as soon as some key ends in `.txt`, because its pattern also goes through the parent directory
  (`DotPatternFails`). For every history the store agrees with
  filtering one set exactly when each complete triple is led to by its own keys only (`AgreesExactly`). In terms
  of the keys alone: after adds that ran to their end, exactly when every key names a single directory entry,
  picks itself and is picked by no other (`CompleteAgrees`); with keys that name one entry each, the same
  condition is exact wherever adds were cut off (`NamedAgrees`), and a cut-off add is invisible exactly when
  without it the same names find each completed triple, or none did and none do (`TornInvisibleExactly`). A link attribute whose tag
  contains a separator is read back as another attribute (`AttributeRoundTrip`, `MovedSeparator`). Triples
  compare by index alone, so of two matches with the same index only the one whose text sorts first reaches the
  index filter (`FetchedExactly`, `NothingLost`). The collision look-up in `add_eavi` starts at a directory
  literally called `*`: with keys that name one entry each it never finds anything (`LookupFindsNothing`), and in
  general it does only if some key leads there (`LookupExact`, `LookupFinds`).

## Model

| member | source | states |
|---|---|---|
| `PeriodCodec.Fmt` | core_types/src/time.rs:104-164 | the formatter's step-by-step output is the mixed-radix text `Show`, which `ShowThenParse` proves readable |
| `PeriodCodec.FmtSeconds` | core_types/src/time.rs:133-162 | the tail of the formatter: fractional seconds, auto-scaled sub-seconds or nothing, appended to what was written before |
| `PeriodCodec.FmtSub` | core_types/src/time.rs:147-155 | the scale is the finest one holding data |
| `PeriodRoundTrip.ShowThenParse` | core_types/src/time.rs:104-324 | parsing the printed form of any period (all u64 seconds, all nanoseconds below a second) succeeds, gives exactly that period and overflows in no partial sum |
| `PeriodRoundTrip.ShowInjective` | core_types/src/time.rs:104-164 | different periods print differently |
| `PeriodRoundTrip.CanonicalForm` | core_types/src/time.rs:60-82 | re-serializing an accepted text gives a text that parses to the same period and prints as itself |
| `PeriodRoundTrip.ShowMatched` | core_types/src/time.rs:169-196 | the pattern captures exactly the printed components, for every split of a period |
| `PeriodRoundTrip.MillisAreNotMinutes` | core_types/src/time.rs:178-189 | the optional minutes item gives back the `m` of a number in milliseconds |
| `PeriodRoundTrip.LoneSecondMark` | core_types/src/time.rs:179-191 | what would remain if that `m` were read as minutes is refused |
| `PeriodRoundTrip.CapturesGivePeriod` | core_types/src/time.rs:208-322 | captures of components that add up to a period evaluate to that period, without overflow |
| `PeriodRoundTrip.SplitAddsUp` | core_types/src/time.rs:106-131 | the printed components add up to the seconds |
| `PeriodUnits.BareLettersRefused` | core_types/src/time.rs:52-58 | any number followed by `u`, `μ` or `n` is refused unless an `s` follows, or after `n` an `a` |
| `PeriodUnits.MicroContinuation` | core_types/src/time.rs:186-192 | which continuations of a number and `u` or `μ` are accepted: those that go on with the mark of the second, and then with what may follow microseconds |
| `PeriodUnits.NanoContinuation` | core_types/src/time.rs:186-192 | the same for `n`, where the rest of `nano` may come first |
| `PeriodUnits.ColonAccepted` | core_types/src/time.rs:183-187 | a colon before whole seconds, with or without larger units before it, is taken: the captures are those of the components |
| `Decimal.FieldRoundTrip` | core_types/src/time.rs:136-140 | zero-filling to nine digits and trimming trailing zeros is undone by the parser's truncate-or-fill |
| `Decimal.DecIsNumeral` | core_types/src/time.rs:104-164 | printed numbers are digit runs whose value is the number |
| `Regex.PassesSkips` | core_types/src/time.rs:169-196 | an optional item that cannot start matches the empty text and leaves the rest to what follows |
| `Regex.StuckFails` | core_types/src/time.rs:169-196 | an item that cannot start fails whatever follows |
| `Regex.RunTakenWhole` | core_types/src/time.rs:169-196 | backtracking never profits from giving back part of a digit run when what follows cannot start with a digit |
| `PeriodTimeout.TimeoutIsSaturated` | core_types/src/time.rs:345-357 | for any width of `usize`, the conversion is the saturated number of milliseconds exactly when the truncated seconds allow it |
| `PeriodTimeout.TruncatedTimeout` | core_types/src/time.rs:340-357 | a 32-bit case where a very long period becomes a short timeout |
| `PeriodTimeout.TimeoutMonotone` | core_types/src/time.rs:345-357 | with 64 bits a longer period never gives a shorter timeout |
| `PeriodTimeout.TimeoutPrecision` | core_types/src/time.rs:34-38 | with 64 bits, below saturation the way to a timeout and back loses less than a millisecond; otherwise the result is the maximum |
| `ActionLoop.HistoryOfReduceAll` | core/src/state.rs:115-131 | the history holds exactly the ids of the reduced actions |
| `ActionLoop.KeepMembers` | core/src/instance.rs:222-228 | filtering keeps exactly the live observers |
| `ActionLoop.TickOnce` | core/src/instance.rs:222-228 | every live observer gets one tick, nobody else any |
| `ActionLoop.LoopThread.ProcessAction` | core/src/instance.rs:182-229 | one call: new state, trace signal, observer channel drained, live observers kept and ticked |
| `ActionLoop.LoopThread.Run` | core/src/instance.rs:158-229 | the loop over any rounds of arriving observers, dying receivers and actions: the actions are folded into the state and signalled in order, the observers are those installed by then, the ticks those of every round |
| `ActionLoop.InstalledMembers` | core/src/instance.rs:221-228 | over any rounds, the installed observers are, each once, exactly those that have been alive in every round since they arrived |
| `ActionLoop.TickedEveryRound` | core/src/instance.rs:221-228 | an observer is ticked once in every round from its arrival for as long as it is alive, no other client ever |
| `ActionRuns.InvRun` | core/src/instance.rs:158-229 | every interleaving keeps the order, observer, tick and client invariants |
| `ActionRuns.DispatchOrder` | core/src/instance.rs:168-229 | in every reachable state, processed, in-flight and queued actions make up the dispatch order, the state is the fold of the processed ones and the history their ids |
| `ActionRuns.NoLostWakeUp` | core/src/instance.rs:297-308 | a client still waiting after its action's notify step has a tick in its queue |
| `ActionRuns.ReturnMeansProcessed` | core/src/instance.rs:297-308 | `dispatch_action_and_wait` returns only once the action is in the published state |
| `ActionRuns.NotifyReachesAll` | core/src/instance.rs:221-228 | a notify step keeps and ticks every live registered observer exactly once, and nobody else |
| `ActionRuns.LoopRound` | core/src/instance.rs:182-229 | the four loop steps, uninterrupted, are one `process_action` |
| `ActionProgress.NotifiedAfter` | core/src/instance.rs:158-229 | in every run, whoever else moves, the action at place `i` of the dispatch order is published and notified exactly when the loop thread has taken `4(i+1)` steps in all |
| `ActionProgress.LoopNotBlocked` | core/src/instance.rs:158-229 | until then the loop thread can take its next step |
| `ActionProgress.CountsDown` | core/src/instance.rs:297-308 | in every run after the notify step, each step of the waiting call brings it one closer to its return and none of them is a timeout |
| `ActionProgress.CallNotBlocked` | core/src/instance.rs:297-308 | after the notify step the call can take its next step until it has returned |
| `ActionProgress.FinishesAmidOthers` | core/src/instance.rs:297-308 | a dispatched call has returned in every run that holds enough loop steps for its place in the queue and then two steps of its own, with any steps of others in between |
| `ActionProgress.OnlyNotifyDrains` | core/src/instance.rs:221-228 | in every run without a notify step the observer channel only grows |
| `ActionProgress.RegisterExactly` | core/src/context.rs:230-236 | the loop thread can make room for a registering call exactly when the channel has room or there is an action to work on |
| `ActionProgress.JammedByFinishedCalls` | core/src/context.rs:241-251 | a reachable state with a hundred calls of `block_on`, all returned, in which a `dispatch_action_and_wait` has to register, its action is not sent, and no steps of the loop thread make room |
| `Waiter.OwnActionNeverMatches` | nodejs_waiter/src/waiter.rs:161-282 | an action never meets a condition that it creates |
| `Waiter.WaiterTask.RunConditions` | nodejs_waiter/src/waiter.rs:81-93 | running and retaining conditions decrements matching counts and drops exhausted conditions; no decrement underflows |
| `Waiter.WaiterTask.RunAllChecks` | nodejs_waiter/src/waiter.rs:287-289 | every checker runs once; those that just emptied are removed and send one Stop |
| `Waiter.WaiterTask.ProcessSignal` | nodejs_waiter/src/waiter.rs:158-285 | acceptance, attribution and checks on one trace signal, keeping every checker non-empty with positive counts and channels unshared |
| `Waiter.WaiterTask.Register` | nodejs_waiter/src/waiter.rs:137-152 | a control sender joins the queue |
| `Waiter.WaiterTask.Shutdown` | nodejs_waiter/src/waiter.rs:353-355 | every remaining checker sends one Stop |
| `Waiter.ProcessKeepsInv` | nodejs_waiter/src/waiter.rs:158-289 | one signal keeps the waiter's invariant |
| `WaiterTrace.NothingLeft` | nodejs_waiter/src/waiter.rs:41-51 | the running account of conditions is empty exactly when every obligation attributed so far has had its number of later matches |
| `WaiterTrace.BalanceStep` | nodejs_waiter/src/waiter.rs:81-93 | one action advances the account together with what the action itself adds |
| `WaiterTrace.QueueOk` | nodejs_waiter/src/waiter.rs:164-179 | senders are handed out in order and `current` is the last signalled call if it was accepted |
| `WaiterTrace.StopsAtFirstDischarge` | nodejs_waiter/src/waiter.rs:158-289 | Stop is sent for a call at exactly the first position where everything owed since acceptance, its own return included, has been seen often enough |
| `WaiterTrace.ActiveUntilDischarge` | nodejs_waiter/src/waiter.rs:158-289 | until then, and only until then, the call is active, with exactly the outstanding conditions |
| `WaiterTrace.StopConservation` | nodejs_waiter/src/waiter.rs:287-305 | every accepted sender is active or has had one Stop, never both; no other sender has had any; after shutdown each accepted sender has had exactly one |
| `WaiterTrace.Perform` | nodejs_waiter/src/waiter.rs:341-357 | the background job from first signal to its end: after the shutdown every accepted sender has exactly one Stop; if the signal channel is closed instead it returns an error and the active calls get none; no other sender ever gets one |
| `WaiterTrace.CountsNeverUnderflow` | nodejs_waiter/src/waiter.rs:41-51 | for any number of instances, zero included, no count is decremented below zero and no active checker is empty |
| `WaiterTrace.Confluence` | nodejs_waiter/src/waiter.rs:81-93 | swapping two neighbouring actions that create no obligations leaves the same conditions and the same stops |
| `Toposort.Sort` | conductor_api/src/config.rs:306-309 | finds an order with every edge forwards exactly when the graph has no cycle |
| `Toposort.StuckMeansCyclic` | conductor_api/src/config.rs:306-309 | nodes that are all entered from among themselves contain a cycle |
| `Toposort.OrderExcludesCycles` | conductor_api/src/config.rs:306-309 | a topological order leaves no room for a cycle |
| `Config.SortInstances` | conductor_api/src/config.rs:263-320 | the four outcomes, each if and only if: unresolved bridge, cyclic bridges, repeated ids (a panic), or a permutation of the instance ids with callees before callers |
| `Config.PrefixesClosed` | conductor_api/src/config.rs:322-328 | every prefix of the start order contains the callees of its members |
| `Config.SameCycles` | conductor_api/src/config.rs:268-304 | the graph over node indices is cyclic exactly when the bridges are |
| `ConfigCheck.DetectDupes` | conductor_api/src/config.rs:112-132 | reports each repeated id as often as it is repeated, so nothing exactly when all differ |
| `ConfigCheck.CheckConsistency` | conductor_api/src/config.rs:137-223 | succeeds exactly on consistent configurations: unique ids, resolved references, acyclic bridges; an error names something really wrong |
| `ConfigCheck.CheckIds` | conductor_api/src/config.rs:138-141 | the id checks, in order |
| `ConfigCheck.CheckReferences` | conductor_api/src/config.rs:143-218 | succeeds exactly when every reference resolves |
| `ConfigCheck.RemovalConsistent` | conductor_api/src/config.rs:330-353 | removing an instance keeps a consistent configuration consistent exactly when no bridge and no dpki entry mentions it |
| `ConfigCheck.RemovalIsExact` | conductor_api/src/config.rs:332-353 | the id disappears from the instances and the interfaces, and nothing else does |
| `ConfigCheck.RemovalCanBreak` | conductor_api/src/config.rs:330-353 | a consistent configuration that removal makes inconsistent |
| `Bundle.BundleRecurse` | cli/src/cli/package.rs:86-215 | the recursive packing equals a closed form: the config object, overlaid with the included entries, sealed with the index |
| `Bundle.PackEntries` | cli/src/cli/package.rs:130-201 | the loop over the nodes: directories always go in, plain files only when the tree is non-empty by then |
| `Bundle.AddMeta` | cli/src/cli/package.rs:203-211 | the index is added when there is anything to index |
| `Bundle.UnpackRecurse` | cli/src/cli/package.rs:239-298 | unpacking equals a closed form, whatever order the index is read in |
| `Bundle.UnpackEntry` | cli/src/cli/package.rs:248-282 | a file entry is decoded, a directory entry unpacked, anything else refused |
| `BundleRoundTrip.RoundTrip` | cli/src/cli/package.rs:86-298 | a tree comes back from packing and unpacking, config files up to their JSON object, exactly when every directory in it meets a condition on its names and config file |
| `BundleRoundTrip.UnpackSealed` | cli/src/cli/package.rs:203-298 | unpacking sees exactly the tree and the index that were packed |
| `BundleRoundTrip.LoneFileIsLost` | cli/src/cli/package.rs:133-141 | a directory holding one plain file packs to nothing |
| `SecretLaws.AppendOnly` | conductor_api/src/keystore.rs:226-531 | no run, of any operations and whatever the passphrase manager answers, changes or loses a stored blob |
| `SecretLaws.FailureAddsNothing` | conductor_api/src/keystore.rs:253-320 | a failed call adds no secret, except that a failed bundle may leave its signing half |
| `SecretLaws.UniformRun` | conductor_api/src/keystore.rs:253-279 | with a constant passphrase and no change of it, all blobs and the check text share it over every run, encrypting-key derivation included |
| `SecretLaws.UniformAfterAdd` | conductor_api/src/keystore.rs:253-301 | an add keeps one passphrase for all exactly when the identifier is taken, no passphrase is given, the secret cannot be stored, or the passphrase is the right one |
| `SecretLaws.UniformAfterChange` | conductor_api/src/keystore.rs:182-192 | a successful change of passphrase keeps it exactly when the store is empty or nothing changes |
| `SecretLaws.AddThenGet` | conductor_api/src/keystore.rs:295-336 | in the same process an added secret is got back, whatever passphrase is given later, or none |
| `SecretLaws.AddReloadGet` | conductor_api/src/keystore.rs:226-279 | from the file it is got back exactly when decryption uses the passphrase of the add and the secret is intact, zeroed seeds aside |
| `SecretLaws.BundleRoundTrip` | conductor_api/src/keystore.rs:461-507 | an added key bundle is got back, in the same process always, from the file exactly when both halves are intact and decrypted with their passphrases |
| `SecretLaws.SignatureVerifies` | conductor_api/src/keystore.rs:379-531 | signatures of a derived key verify under the public key that its derivation returned, whatever passphrase is given when signing |
| `SecretLaws.PanicsExactly` | dpki/src/key_blob.rs:293-331 | in a keystore whose seeds have their size, a call panics exactly when, with a passphrase and a free identifier, it adds a seed of another size or a key that does not decode or overflows its blob, alone or as a half of a bundle |
| `SecretLaws.BadKeysPanic` | dpki/src/keypair.rs:37-41 | adding a signing key whose public half does not decode, or whose private half is longer than 71 bytes, to an empty keystore panics |
| `SecretLaws.IntactExactly` | dpki/src/key_blob.rs:293-362 | what is read from a blob is what was stored exactly when a seed has its size, or a key's private half has its size and its public half is the text that its bytes encode to |
| `SecretLaws.RunsThrough` | conductor_api/src/keystore.rs:253-279 | a run replies to all its calls without a panic exactly when none of them, in the state it finds, stores what cannot be stored |
| `SecretLaws.SafeCalls` | conductor_api/src/keystore.rs:253-279 | on the calls alone: every part of a list of calls goes through from every keystore exactly when none of the calls asks, with a passphrase, for a secret to be stored that cannot be |
| `SecretLaws.StrayUnobservable` | conductor_api/src/keystore.rs:295-336 | whatever the cache holds for identifiers that are not stored, every run gives the same replies and stores the same blobs |
| `SecretLaws.FailedAddIsStray` | conductor_api/src/keystore.rs:253-301 | what a failed add leaves in the cache is of that kind, also when the passphrase manager fails |
| `KeystoreCache.CacheUnobservable` | conductor_api/src/keystore.rs:226-531 | under one fixed passphrase every run of adds of intact secrets, derivations of seeds and signing keys, bundles, gets and signatures replies as a keystore without a cache and leaves the same secrets, even if the manager sometimes fails or a call panics |
| `KeystoreCache.CacheAfterAdd` | conductor_api/src/keystore.rs:226-301 | an add keeps the cache coherent exactly when decryption will use the same passphrase and the secret is intact, zeroed seeds aside |
| `KeystoreCache.EncryptingKeysCoincide` | dpki/src/keypair.rs:148-158 | any two encrypting keys, derived from any seeds in any two keystores, are the same key: the argument order makes the zeroed public buffer the seed |
| `KeystoreCache.EncryptingKeyBreaksCache` | dpki/src/keypair.rs:148-158 | after deriving an encrypting key, whether or not it could be stored, the cache is right exactly when the source seed happens to be what it was overwritten with |
| `KeystoreCache.LaterGetDiffers` | sodium/src/kx.rs:32-36 | a later get of the source replies differently from a keystore without a cache exactly when the seed differs from that |
| `KeystoreCache.LaterSigningKeyDiffers` | sodium/src/kx.rs:32-36 | so does a later derivation of a signing key, if different seeds have different public keys |
| `Keystore.CachingKeystore.DoAll` | conductor_api/src/keystore.rs:226-531 | a whole run on the object, for every answer of the passphrase manager and up to a panic, is the run of the value that the laws above are about |
| `Keystore.CachingKeystore.Do` | conductor_api/src/keystore.rs:226-531 | each single operation is the value's step, from any state |
| `Keystore.CachingKeystore.AddSecret` | conductor_api/src/keystore.rs:295-310 | the cache entry comes first, then the encryption; identifier taken, no passphrase and the panics of blobbing each as in the value |
| `Keystore.CachingKeystore.GetSecret` | conductor_api/src/keystore.rs:323-336 | the cached or freshly decrypted secret, or the error |
| `Keystore.CachingKeystore.DecryptInto` | conductor_api/src/keystore.rs:226-249 | the default passphrase is tried against the check text first; the cache changes only on success |
| `Keystore.CachingKeystore.EncryptFrom` | conductor_api/src/keystore.rs:253-279 | the blob is stored under the given passphrase, right or wrong, and holds what can be read back; what cannot be stored panics |
| `Keystore.CachingKeystore.AddSeedFromSeed` | conductor_api/src/keystore.rs:349-375 | the derived seed is added, or the first of the source's errors is returned |
| `Keystore.CachingKeystore.AddSigningKeyFromSeed` | conductor_api/src/keystore.rs:379-419 | the derived key is added and its public key returned, or the first error |
| `Keystore.CachingKeystore.AddEncryptingKeyFromSeed` | conductor_api/src/keystore.rs:402-419 | as the value's derivation, which overwrites the cached seed; with one passphrase throughout, the cache stays coherent exactly when the seed is what it is overwritten with |
| `Keystore.CachingKeystore.AddKeybundle` | conductor_api/src/keystore.rs:461-476 | the signing half first, then the encrypting half |
| `Keystore.CachingKeystore.AddKeybundleFromSeed` | conductor_api/src/keystore.rs:444-457 | the two derivations one after the other, with their effect on every cache entry |
| `Keystore.CachingKeystore.GetKeybundle` | conductor_api/src/keystore.rs:481-507 | both halves, or the first error |
| `Keystore.CachingKeystore.SignWith` | conductor_api/src/keystore.rs:512-531 | the signature with the stored key, or the error |
| `Keystore.CachingKeystore.ChangePassphrase` | conductor_api/src/keystore.rs:182-192 | only the check text changes, and only for the right old passphrase |
| `SecBuf.AgreesThroughout` | sodium/src/secbuf.rs:154-172 | recorded and actual protection agree throughout a run exactly when it clones secure buffers only unlocked |
| `SecBuf.DisagreementIsAClone` | sodium/src/secbuf.rs:154-172 | the only step that separates the two is a clone of a locked secure buffer |
| `SecBuf.ReleaseRepairs` | sodium/src/secbuf.rs:309-313 | dropping the lock brings them back together |
| `SecBuf.LockedCloneExample` | sodium/src/secbuf.rs:154-172 | a read-locked secure buffer after a clone |
| `SecBuf.Buffer.Lock` | sodium/src/secbuf.rs:219-242 | locking a locked buffer panics and changes nothing |
| `SecBuf.Buffer.Unlock` | sodium/src/secbuf.rs:245-248 | record and page both become no-access |
| `SecBuf.Buffer.Write` | sodium/src/secbuf.rs:263-272 | exactly the given range changes, or nothing on overflow or when locked |
| `SecBuf.Buffer.Duplicate` | sodium/src/secbuf.rs:154-172 | the copy has the same bytes and is at rest; the original's page becomes inaccessible |
| `KeyBlob.WriteFields` | dpki/src/key_blob.rs:174-213 | fields written at a running offset end up one after the other behind the version byte, in any buffer with room for them |
| `KeyBlob.BlobBundle` | dpki/src/key_blob.rs:174-225 | decoding a bundle's blob gives the bundle back |
| `KeyBlob.BlobSigning` | dpki/src/key_blob.rs:293-331 | panics exactly when the public key has another size or the private key overflows the blob; otherwise decoding gives the public key and the private key cut or filled up to its size, so the key itself exactly when the size was right |
| `KeyBlob.BlobEncrypting` | dpki/src/key_blob.rs:391-429 | the same for an encrypting key |
| `KeyBlob.BundleLayout` | dpki/src/key_blob.rs:228-264 | a buffer decodes to given keys exactly when it starts with the version and the four fields: slices neither overlap nor leave a gap |
| `KeyBlob.SigningLayout` | dpki/src/key_blob.rs:336-362 | the same for a signing key |
| `KeyBlob.EncryptingLayout` | dpki/src/key_blob.rs:434-460 | the same for an encrypting key |
| `KeyBlob.UnblobBundle` | dpki/src/key_blob.rs:228-264 | reads under a lock that is released on every path |
| `KeyBlob.ZeroedIsRefused` | dpki/src/key_blob.rs:244-250 | the buffer that a wrong passphrase leaves is no key blob |
| `KeyBlob.Aligned` | dpki/src/key_blob.rs:159-159 | aligned sizes are multiples of 8 with less than 8 bytes of padding |
| `AttributeText.AttributeRoundTrip` | core_types/src/eav/eavi.rs:67-116 | printing and parsing an attribute gives it back exactly when its tag has no separator and no line feed occurs |
| `AttributeText.GroupsOfPrinted` | core_types/src/eav/eavi.rs:84-104 | the greedy match splits a printed link at its last separator |
| `AttributeText.MovedSeparator` | core_types/src/eav/eavi.rs:67-104 | a tag with a separator is read back as another attribute |
| `AttributeText.ShowOfParsed` | core_types/src/eav/eavi.rs:84-116 | a text that parses is the printed form of what it is read as, so no two names read alike |
| `FilePath.JoinComponent` | cas_implementations/src/eav/file.rs:87-91 | a key that names one entry becomes a directory of the tree with that name |
| `FilePath.TrailingSlash` | cas_implementations/src/eav/file.rs:87-91 | a slash at the end of a key changes nothing about its directory |
| `FilePath.WalkResolved` | cas_implementations/src/eav/file.rs:87-93 | wherever a key leads, dots and empty pieces are gone from the path |
| `Glob.LiteralGlob` | cas_implementations/src/eav/file.rs:41-43 | a name without wildcards, read as a pattern, matches itself only |
| `Glob.StarGlob` | cas_implementations/src/eav/file.rs:41-43 | a name that ends in a star matches exactly what begins with the text before it |
| `EavStore.DiskHolds` | cas_implementations/src/eav/file.rs:75-102 | after any adds, each cut off anywhere, the disk holds exactly the directories and files that some add reached, under their resolved paths, and every file the text of the triple it is named for |
| `EavStore.WhoseFile` | cas_implementations/src/eav/file.rs:75-102 | every file on the disk is that of some triple in some tree |
| `EavQuery.FetchExact` | cas_implementations/src/eav/file.rs:104-198 | whatever adds were made, of whatever keys and wherever cut off, the three trees have in common exactly the texts of the triples that in each tree some name passing the filter leads to: one that is listed, finds the triple's file as a pattern, through the tree, `.` or `..`, and finds no directory |
| `EavQuery.AgreesExactly` | cas_implementations/src/eav/file.rs:104-198 | for every history: all queries find what filtering one set finds exactly when each complete triple is led to in every tree by its own key and no other, and each incomplete one is out of reach in some tree |
| `EavQuery.AlikeExactly` | cas_implementations/src/eav/file.rs:153-198 | two histories, say with and without an add that was cut off, give the same results for every query exactly when for each triple the same values lead to it in every tree, or it is out of reach after both |
| `EavKeys.NamedAgrees` | cas_implementations/src/eav/file.rs:75-198 | with keys that name one entry each, wherever adds were cut off, all queries find what filtering one set finds exactly when each completed key finds itself, is not hindered by a key that ends in `.txt`, and is picked by no other usable key |
| `EavKeys.NamedLeads` | cas_implementations/src/eav/file.rs:39-149 | with such keys, a value leads to a triple in a tree exactly when its file is there and a usable name reads as the value and picks its key |
| `EavKeys.NamedOpen` | cas_implementations/src/eav/file.rs:47-61 | with such keys, reading a listed name fails exactly when it is a pattern that begins with a dot and matches `..`, and some key in any tree ends in `.txt` |
| `EavKeys.CompleteFiles` | cas_implementations/src/eav/file.rs:175-178 | with such keys, a triple is complete exactly when its third file is there |
| `EavCuts.CompleteAgrees` | cas_implementations/src/eav/file.rs:75-198 | after adds that ran to their end, of any keys whatever, all queries find what filtering one set finds exactly when every key names one entry, finds itself unhindered and is picked by no other usable key |
| `EavCuts.OwnNeedsName` | cas_implementations/src/eav/file.rs:104-149 | a triple whose key names no single entry is never led to by its own key |
| `EavCuts.ResolvedName` | cas_implementations/src/eav/file.rs:87-91 | in whatever directory of its tree a key ends up, through slashes and dots, the name of that directory leads to the triple |
| `EavCuts.SlashTag` | cas_implementations/src/eav/file.rs:87-91 | a triple whose tag ends in a slash is found under the tag without it |
| `EavCuts.SlashTagFound` | cas_implementations/src/eav/file.rs:87-91 | the tag `x/`: added alone, it is found under `x` and the store disagrees with filtering one set |
| `EavCuts.TxtDirHides` | cas_implementations/src/eav/file.rs:47-61 | a directory at the depth of files whose name ends in `.txt` makes reading fail, silently, on the name above it |
| `EavCuts.TxtEntityHides` | cas_implementations/src/eav/file.rs:47-61 | an entity `k/0/y.txt` hides every triple from queries for the entity `k` |
| `EavCuts.TornInvisibleExactly` | cas_implementations/src/eav/file.rs:175-198 | with keys that name one entry each, an add that was cut off is invisible to every query exactly when for each completed triple the same usable names pick its keys without the add, or it can be found neither with nor without |
| `EavCuts.TornStarVisible` | cas_implementations/src/eav/file.rs:175-198 | an add with the tag `*`, cut off once its directory is there, changes the result of a query |
| `EavCuts.DotPatternFails` | cas_implementations/src/eav/file.rs:39-61 | the entities `.*` and `k.txt`: after both adds the store disagrees with filtering one set |
| `EavCuts.PlainAgrees` | cas_implementations/src/eav/file.rs:75-198 | with keys that also hold no wildcard and are read back as themselves, all queries find what filtering one set finds, wherever adds were cut off |
| `EavCuts.TornPlainInvisible` | cas_implementations/src/eav/file.rs:175-198 | with such keys an add that was cut off changes the result of no query |
| `EavCuts.LookupExact` | cas_implementations/src/eav/file.rs:153-167 | the look-up for a collision finds something exactly when the triple itself was written with a key that leads to the directory named `*`, or some key's directory is the very path |
| `EavCuts.LookupFindsNothing` | cas_implementations/src/eav/file.rs:153-167 | with keys that name one entry each it finds nothing, whatever was added before |
| `EavCuts.LookupFinds` | cas_implementations/src/eav/file.rs:153-167 | an entity that steps out of its tree and into a directory named `*` is found |
| `EavFileStorage.Collect` | cas_implementations/src/eav/file.rs:200-210 | fails exactly when some text does not parse; otherwise for each index the triple whose text sorts first is kept |
| `EavFileStorage.FetchedExactly` | cas_implementations/src/eav/file.rs:181-210 | what is handed on to the index filter: of the triples found, for each index the one whose text sorts first |
| `EavFileStorage.AllFetchedParse` | cas_implementations/src/eav/file.rs:200-215 | no text that a query collects fails to parse |
| `EavFileStorage.NothingLost` | core_types/src/eav/eavi.rs:147-157 | collecting into a set ordered by index keeps everything exactly when no two of the triples found share an index |
| `EavFileStorage.FileStorage.AddEavi` | cas_implementations/src/eav/file.rs:153-179 | the triple is written as given, or with a new index exactly when the look-up finds something, or refused exactly when its link kind is invalid then; cut off anywhere, the disk is that of the longer history |
| `EavFileStorage.FileStorage.Fetch` | cas_implementations/src/eav/file.rs:181-224 | on the disk of any history: the triples found, for each index the one whose text sorts first, or a failure exactly when some text does not parse |
| `NetWorker.RunInv` | net/src/ipc_net_worker.rs:165-230 | in every run the log of outputs accounts for the worker's fields, and every output was due when made |
| `NetWorker.NoticesSeparated` | net/src/ipc_net_worker.rs:206-226 | two ready notices always have a Terminated message between them |
| `NetWorker.ReadyWhenTold` | net/src/ipc_net_worker.rs:219-226 | after a message, a last-known state of ready implies the ready flag |
| `NetWorker.BootstrapOnce` | net/src/ipc_net_worker.rs:241-253 | every bootstrap node is sent exactly one Connect, in order, after the first ready notice, and none before |
| `NetWorker.ConfigOnlyWhenNeeded` | net/src/ipc_net_worker.rs:256-291 | SetConfig is sent only while the last state told is need_config, GetState only while it is not ready |
| `NetWorker.AsksSpaced` | net/src/ipc_net_worker.rs:256-265 | over every run, requests for the state are more than half a second apart |
| `NetWorker.ConfigEchoed` | net/src/ipc_net_worker.rs:280-291 | a config goes out exactly in answer to a default config that came while one was needed, and is that config |
| `NetWorker.Worker.OnTick` | net/src/ipc_net_worker.rs:165-230 | one tick: the guarded state request, then the events in order |
| `NetWorker.Worker.OnMessage` | net/src/ipc_net_worker.rs:186-226 | handling, forwarding, termination and the ready notice, in that order |
| `NetWorker.Worker.SendConnects` | net/src/ipc_net_worker.rs:241-253 | the list of bootstrap nodes is drained, one Connect each |
| `NetWorker.Worker.HandleState` | net/src/ipc_net_worker.rs:268-276 | the state is recorded; the default config is asked for when one is needed |
| `NetWorker.Worker.HandleDefaultConfig` | net/src/ipc_net_worker.rs:280-291 | the config is passed back only when needed |
| `NetWorker.Worker.RequestState` | net/src/ipc_net_worker.rs:256-265 | the state is asked for at most every half second |

## Left out

- EavFileStorage.FileStorage.AddEavi: does not model an add refused by the file system because a key leads through an existing file; such an add is one that was cut off there.
- EavCuts.CompleteAgrees: takes a store directory that is an absolute path without dots, and file and index names that are single entries.
- EavQuery.FetchExact: takes a store directory whose own name holds no wildcard, and a directory tree without symbolic links.
- Waiter.WaiterTask.Register: asks for a channel that was not registered before, because the conductor makes a new channel for every call.
- KeyBlob.BlobBundle: takes keys of the sizes that the key types have; the keystore stores the two halves as blobs of their own.
- Keystore.CachingKeystore.SignWith: takes signing as a total function; with a private key shorter than 64 bytes libsodium reads past the end of the buffer.
- EavCuts.TornInvisibleExactly: for a cut-off add whose key holds a slash or dots the condition is that of `EavQuery.AlikeExactly`, on what leads where, because such a key may put its files into other trees.
- SecBuf.Buffer.WithSecure takes sizes that are multiples of 8, because the code panics on others.
- ISO 8601 timestamps: chrono's parser does the work.
- Build directories in the packager (`.hcbuild`, WASM compilation, `bin` entries): external processes; an index entry of kind `bin` is refused like any unknown kind.
- Stripping the index from a bundle, the DNA schema check after packing, file names that are not text, and files left behind by an unpacking that fails half way.
- The ignore files and the order of the directory walk: a directory is given as the list that the walk yields.
- Saving and loading the keystore, and creating one with a root seed: compositions of what is modelled.
- Sharing of a secret with the caller that added or got it: secrets are values here, except for the one in-place update by encrypting-key derivation.
- KeystoreCache.CacheUnobservable: takes a manager that answers every request to decrypt; one that fails there is told apart, because the cache saves asking.
- libsodium, HCID, base64, serde and toml internals; the hash config of passphrases.
- The four state reducers, saving of the state, and the content of actions in the action loop.
- A file of the EAV store that is itself cut off half way: a write happens or does not.
- The index filter after the EAV intersection and the memory store's renumbering of colliding indices.
- Transport errors, reconnects, stopping and spawning in the network worker; failures of the handler.
- Scheduling fairness and wall-clock time: progress is stated as a bound on steps.
- HTTP, WebSocket and CLI front ends, loggers, language bindings, HDK macros, CAS stores: plumbing around the modelled logic.
