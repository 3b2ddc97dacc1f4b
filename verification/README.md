# Verification of the durable jobs pipeline and its neighbours

A Dafny model of the parts of the repository where a mistake would be hardest to see, with proofs
about every input, every run and every reachable state.

* **Durable jobs pipeline** (`Jobs`, `JobStore`, `Spool`, `Executor`, `Pipeline`, `Runner`).
  Submission by a temporary file and a rename, ingest into the store, claims, attempts, retries,
  checkpoints and the recovery pass at open. `Pipeline` is one transition system whose actions are
  the single renames, creates, removes, claims, saves and updates; producers, the ingest loop, any
  number of workers and the boot sequence interleave freely, any call may fail, and a crash may fall
  between any two actions. `JobStore` models the real store with its string keys for the running
  index, its ready index and its recovery scan. `Runner` is the code as the program has it, loops and
  updates in place, with a ghost state that walks the transition system: every method is proved to
  take only legal actions of `Pipeline`, so the theorems there hold of it.
* **Doom-loop detector** (`DoomLoop`): the bounded detector against one that forgets nothing, the
  meaning of its counters, exactly which calls it refuses, and what a run can admit.
* **Capability registry** (`Selectors`, `Policies`, `Registry`, `Rollback`): compiled selectors
  against the plain matcher, policy folds as joins, name indexes against scans, the rollback ring.
* **Smaller algorithms** (`Glob`, `Splitter`, `EditRecord`, `Budget`): the greedy glob matcher, the
  line-or-chunk splitter, the hunk printer with its UTF-8 cut, the artifact token budget.

`Text`, `Bytes` and `Options` hold what these share. Code that updates things in place is a class or
a loop here too, and is proved against a specification function or predicate; pure code is a
function.

## Where the code falls short of the obvious claim

Each of these is proved, as an exact condition or with the input that shows it, mostly both.

* `NextBackoff`: its comment says the clamp keeps the shift from overflowing. It does so if and only
  if the attempt is at most 5 or the base is below 2^58 ns (`Jobs.BackoffExactCondition`,
  `Jobs.ClampAloneOverflows`). Every spec that `Spec.Valid` accepts is safe.
* A handler that returns a cancellation or deadline error of its own, no context being done, leaves
  its job running with no owner, and so does a failed last update (`Pipeline.CancellationStrands`,
  `Pipeline.LeavingStrands`, reached by `Pipeline.SubmissionIsStranded`). The job stays so until the
  process goes down (`Pipeline.StrandedUntilCrash`). Runs without crashes end with a job completed or
  failed if and only if that never happens to it (`Pipeline.EndsTerminalExactly`).
* Recovery finds an interrupted job if and only if its id holds no colon
  (`JobStore.RecoveryReachesExactlyColonFree`), and the store opens if and only if no running key
  belongs to an id that ends in a colon (`Pipeline.OpensExactly`). `Submit` mints no such ids, so what
  it accepts is always recovered (`Pipeline.AcceptedIsRecovered`). A file that another producer drops
  may carry one: then its job stays running for ever (`Pipeline.ColonJobStuckForever`, reached by
  `Pipeline.ColonJobIsOrphaned`) or the store never opens again (`Pipeline.UnreadableKeyBlocksBoot`,
  reached by `Pipeline.TrailingColonPoisons`).
* A submission whose payload encodes as JSON `null` is accepted by `Submit` and then moved to
  `failed/` (`Pipeline.NullPayloadIsLost`); all others are safe (`Pipeline.AcceptedNeverLost`).
* The detector's guarantee holds of every trace whose results each find their call's record open
  (`DoomLoop.NoLoopIsEverAdmitted`). It is not enough that every result answers its own call: then
  repetition gets through for every threshold but one (`DoomLoop.OverlappingCallsEscape`,
  `DoomLoop.RepetitionIsPreventedExactly`).
* `MatchGlob` means what its pattern says on exactly the patterns of `Glob.Faithful`
  (`Glob.AgreementIsExact`): stars at either end are forgotten, and star-free text is compared with
  case.
* `scanLinesOrChunks` says it behaves like `bufio.ScanLines`; it does on exactly the streams of
  `Splitter.Fits` (`Splitter.LinesExactlyWhenTheyFit`, `Splitter.FullLineYieldsExtraToken`).
* The two selector matchers agree for all valid selectors on exactly the descriptors with trimmed (or
  blank) id and name (`Selectors.DescriptorsThatAgree`).
* Bare capability names are indexed as they are but looked up in normalized form, so an entry is found
  by its bare name if and only if that is already lower case and trimmed
  (`Registry.BareNameReachable`, `Registry.MixedCaseBareNameIsMissed`).
* Setting an empty allowlist empties the registry and then admits everything
  (`Registry.CapabilityRegistry.SetAllowedCapabilities`, `Registry.EmptyAllowlistAdmitsAll`).
* The budget may refuse a request that borrowing and compression together have just made room for
  (`Budget.RefusedThoughItFitsExactly`), leaves its usage snapshot stale after most refusals
  (`Budget.StaleExactly`), and forgets items that a compression did not reach while still charging
  for them (`Budget.CompressionBooks`). A charge below its items, which explicit token counts and raw
  frees can leave, may be refused room the pass has saved (`Budget.RoomExactly`,
  `Budget.UncoveredIsRefused`).

One remark on documentation: the spool's comment says unknown fields are rejected, but
`json.Unmarshal` accepts them. The model has no unknown fields; a file is a submission or it is not.

## Assumptions

Renames, creates, removes and store transactions are atomic and durable. File names and correlate
ids minted by producers are fresh; a foreign producer may drop any file into `pending/`. Rollback ids
are fresh too: their only caller draws 128 random bits (capability/registry/invoke.go, lines 145-149).
The ring is modelled for reused ids as well, to show that it depends on this: the two indexes then
disagree (`Rollback.AgreeAppend`) and the newer token can be lost (`Rollback.ReuseLosesTheNewer`). The JSON
codec gives back what it was given, except that a payload encoding as `null` comes back absent. A
worker claims one job at a time, as the executor does, and a claim that reports an error has not
committed. Queue names hold no colon, so ready keys of different queues do not mix, and jobs are not
created before 1970, so that decimals of fixed width order as numbers; ready keys are modelled as
structured keys. Clocks and handlers' answers are
parameters. Case folding and white space are ASCII. Integers are unbounded except in the backoff
arithmetic, where 64-bit wrap-around is written out; floating-point shares are reals.

## Model

| member | source | states |
|---|---|---|
| `Jobs.BackoffExactCondition` | jobs/handler.go:44-74 | For every backoff an int64 holds and every attempt, the int64 arithmetic gives min(base·2^min(attempt−1,5), 5 min) if and only if the attempt is at most 5 or the base is below 2^58 ns. |
| `Jobs.ClampAloneOverflows` | jobs/handler.go:44-44 | A base at the clamp's own limit overflows at attempt 6 and yields a negative delay. |
| `Jobs.BackoffOfValidSpec` | jobs/job.go:63-99 | For every valid spec and every attempt the delay is the documented one, strictly positive and at most five minutes. |
| `Jobs.BackoffMonotone` | jobs/handler.go:51-74 | For every valid spec a later attempt never waits less. |
| `Jobs.DefaultCurve` | jobs/handler.go:51-74 | Without a base of its own a job waits 30, 60, 120, 240 and from the fifth attempt on 300 seconds. |
| `JobStore.RunningKeyRoundTrip` | context/jobsstore/jobsstore.go:595-606 | A running-index key parses back into its worker and job if and only if the job id is non-empty and free of colons. |
| `JobStore.ParsedIdColonFree` | context/jobsstore/jobsstore.go:597-604 | No parsed job id ever holds a colon or is empty. |
| `JobStore.UnreadableExactly` | context/jobsstore/jobsstore.go:597-604 | A running key is unreadable if and only if its job id ends in a colon. |
| `JobStore.CreateConsistent` | context/jobsstore/jobsstore.go:127-169 | For every job, Create keeps records and indexes consistent if and only if it does not accept a job already running that recovery could not find. |
| `JobStore.UpdateConsistent` | context/jobsstore/jobsstore.go:171-202 | For every record, Update keeps them consistent if and only if the correlate id stays and no job is marked running that recovery could not find. |
| `JobStore.ClaimConsistent` | context/jobsstore/jobsstore.go:263-349 | So does a claim, and the claimed job gets a running key. |
| `JobStore.RecoverOneConsistent` | context/jobsstore/jobsstore.go:511-593 | So does the recovery of one interrupted attempt. |
| `JobStore.RecoveryReachesExactlyColonFree` | context/jobsstore/jobsstore.go:456-509 | After recovery a job that was running no longer is, if and only if its id is colon-free. |
| `JobStore.RecoveredRecord` | context/jobsstore/jobsstore.go:511-593 | After a recovery pass every record is, field by field, the restarted one (delay, token, error, times) if it was running under a colon-free id, and unchanged otherwise. |
| `JobStore.LeastKeyExists` | context/jobsstore/jobsstore.go:89-102 | Ready keys are totally ordered, so every non-empty queue has a first job. |
| `JobStore.KeyOrderIsClaimOrder` | context/jobsstore/jobsstore.go:89-102 | The order of ready keys is priority descending, then creation, then id, on the records. |
| `JobStore.FirstDueIsChosen` | context/jobsstore/jobsstore.go:263-349 | In a consistent store the first due key belongs to the job that goes before every other waiting one. |
| `JobStore.Database.CreateJob` | context/jobsstore/jobsstore.go:127-169 | Refuses exactly the malformed records, fault by fault, answers known ids and correlate ids as existing, changes nothing then, and else adds the record and its index entries. |
| `JobStore.Database.UpdateJob` | context/jobsstore/jobsstore.go:171-202 | Replaces a known, well-formed record and its ready entry; anything else is refused without change. |
| `JobStore.Database.ClaimNext` | context/jobsstore/jobsstore.go:263-349 | By the records alone: claims a waiting job of the first queue that has any, such that no waiting job of that queue has a higher priority (clamped to 0..999999), or the same and an earlier creation, or the same again and an id that comes first; raises its attempt by one, marks it running and changes no other record; none claimed means none waits. |
| `JobStore.Database.Recover` | context/jobsstore/jobsstore.go:456-509 | Fails exactly if a running key is unreadable. Else exactly the running jobs with colon-free ids are restarted, field by field: queued after the documented delay with the token set if a checkpoint is stored while attempts remain, failed for good otherwise; every other record stays. |
| `JobStore.Database.PutCheckpoint` | context/jobsstore/jobsstore.go:407-428 | Stores the checkpoint under its job and changes nothing else. |
| `Spool.ProducePreserves` | ayenitd/spool.go:275-312 | Every step of every producer (temporary file, write, rename, foreign files) keeps the spool invariant. |
| `Spool.WatchPreserves` | ayenitd/spool.go:143-263 | So does every step of the ingest loop: listing, rename, parse, reject, remove, debris sweep. |
| `Spool.YoungTempIsKept` | ayenitd/spool.go:143-166 | A temp file less than an hour old is left alone by the ingest loop, and its rename stays possible. |
| `Spool.IngestPreserves` | ayenitd/spool.go:207-254 | So does the store call of ingest, whether it succeeds, fails or finds the id known. |
| `Spool.IngestNeverRewrites` | ayenitd/spool.go:229-254 | Ingest leaves every record already in the store as it is. |
| `Spool.MaterializedIsKnown` | ayenitd/spool.go:59-69 | Materializing and creating a file's job makes its correlate id known, or it was known already. |
| `Spool.IngestCreates` | ayenitd/spool.go:59-69 | A file with a new correlate id adds exactly one record: job- and that id, the submitted spec, queued, never attempted, due at once; nothing else but the indexes changes. |
| `Executor.WorkPreserves` | ayenitd/executor.go:65-223 | Every call a worker makes keeps the executor invariant: ownership, attempts, requeue budget, resume tokens. |
| `Executor.BootPreserves` | context/jobsstore/jobsstore.go:456-593 | So does every step of the boot sequence and its recovery. |
| `Executor.CrashPreserves` | jobs/doc.go:12-14 | So does a crash at any moment. |
| `Pipeline.StepPreserves` | ayenitd/spool.go:168-254 | Every action of the whole system keeps the joint invariant of spool, store and workers. |
| `Pipeline.ReachableInv` | ayenitd/executor.go:65-223 | Hence it holds in every reachable state. |
| `Pipeline.ReceiptStands` | ayenitd/spoolclient.go:48-70 | A submission's receipt stands for the rest of every run. |
| `Pipeline.AcceptedNeverLost` | ayenitd/spool.go:168-254 | In every continuation of every run, an accepted submission is in pending/, claimed/ or the store and never in failed/ (payloads encoding as null excepted). |
| `Pipeline.SubmissionIsAccepted` | ayenitd/spoolclient.go:46-81 | Every valid spec under a minted id, also one whose payload encodes as null, is accepted in some run. |
| `Pipeline.NullPayloadIsLost` | ayenitd/spool.go:207-263 | There is a run in which it then ends in failed/ and nowhere else. |
| `Pipeline.StoredAsSubmitted` | ayenitd/spool.go:48-69 | What the store holds for an accepted id is the spec that was submitted. |
| `Pipeline.OneJobPerCorrelateID` | ayenitd/spool.go:186-254 | In every reachable state two jobs of one correlate id are the same job. |
| `Pipeline.DrainNeverResets` | ayenitd/spool.go:168-254 | No step of submission or draining, re-ingest of leftovers included, alters a stored record. |
| `Pipeline.NeverReset` | ayenitd/spool.go:186-254 | Over every run, crashes and re-ingests included, a stored job keeps its spec and its attempts never decrease. |
| `Pipeline.SingleOwner` | ayenitd/executor.go:65-87 | A worker's job is running, at the worker's attempt, and no other worker has it. |
| `Pipeline.TerminalForever` | ayenitd/executor.go:91-223 | The whole record of a completed or failed job stands in every continuation. |
| `Pipeline.ResumeTokensResolve` | ayenitd/executor.go:113-203 | In every reachable state a resume token is the job's own id and its checkpoint is stored, in records and in flight. |
| `Pipeline.RequeuesBounded` | ayenitd/executor.go:181-230 | Requeues by workers and by recovery together are fewer than the attempts the spec allows (one if it says none), and attempts at most that many, also over restarts with other handlers. |
| `Pipeline.UnknownNeverRequeued` | ayenitd/executor.go:96-102 | No call of a worker requeues a job whose kind its process has no handler for. |
| `Pipeline.MovesBounded` | ayenitd/executor.go:91-223 | In every run, crashes included, a job changes state at most twice per allowed attempt. |
| `Pipeline.RetryIsLater` | ayenitd/executor.go:186-188 | Every requeue by a worker is due strictly after it was decided. |
| `Pipeline.RecoveryRetryIsLater` | context/jobsstore/jobsstore.go:558-563 | So is every requeue by recovery. |
| `Pipeline.BootLeavesNoneRunning` | jobs/doc.go:12-14 | When a boot is done no job with a colon-free id is still running, whoever submitted it. |
| `Pipeline.BootRestarts` | context/jobsstore/jobsstore.go:456-593 | Over a whole boot from every reachable state: each job running under a colon-free id ends restarted, field by field, as of the scan; every other colon-free record is as it was. |
| `Pipeline.AcceptedIsColonFree` | ayenitd/spoolclient.go:72-81 | In every reachable state every accepted id is a minted one (turn-, milliseconds, hex), so its job id holds no colon. |
| `Pipeline.AcceptedIsRecovered` | context/jobsstore/jobsstore.go:456-509 | Whatever crashed before, once a boot is done the job of every accepted submission is not running and is in hand. |
| `Pipeline.ColonJobStuckForever` | context/jobsstore/jobsstore.go:456-509 | A job with a colon in its id, left running by a crash, keeps its record for ever in every continuation. |
| `Pipeline.ColonJobIsOrphaned` | context/jobsstore/jobsstore.go:456-509 | Every well-formed file another producer drops whose id holds a colon has a run (drop, ingest, claim, crash) to such a state. |
| `Pipeline.ColonIsForeign` | ayenitd/spool.go:186-254 | A stored job whose id holds a colon always comes from such a file. |
| `Pipeline.UnreadableKeyBlocksBoot` | context/jobsstore/jobsstore.go:478-481 | With an unreadable running key the store never opens again in any run. |
| `Pipeline.ReadableExactly` | context/jobsstore/jobsstore.go:456-509 | In every reachable state all running keys are readable if and only if none was written for an id ending in a colon. |
| `Pipeline.OpensExactly` | context/jobsstore/jobsstore.go:456-509 | A process that is down can start to boot if and only if that is so. |
| `Pipeline.TrailingColonPoisons` | context/jobsstore/jobsstore.go:104-106 | Every well-formed file another producer drops whose id ends in a colon has a run to a store that does not open. |
| `Pipeline.OpensWithoutForeign` | context/jobsstore/jobsstore.go:456-509 | While all submissions come through Submit, a process that is down can always boot. |
| `Pipeline.WorkLowersRank` | ayenitd/executor.go:91-223 | Each call a worker makes for a job, giving it up included, lowers a rank built from the attempts left and the stage. |
| `Pipeline.CallsBounded` | ayenitd/executor.go:91-230 | Along every run without crashes, whatever handlers answer and store calls fail, the calls made for a job are at most its rank. |
| `Pipeline.OwnerCanProceed` | ayenitd/executor.go:91-223 | The owner of a running job always has a next call, and it gives the job up only where the guard says so. |
| `Pipeline.QueuedCanBeClaimed` | ayenitd/executor.go:65-87 | A queued job that is due can be claimed by any idle worker and stands in the ready index. |
| `Pipeline.GuardDecides` | ayenitd/executor.go:148-161 | After a handler's error an attempt can only be left running if the run is over, or the error is a cancellation and the job has no timeout or it has not run out; else it can only go on to fail or requeue. |
| `Pipeline.TimeoutIsRetried` | ayenitd/executor.go:148-161 | An attempt whose own timeout ran out, the run not being over, can never be left running, whatever the error; its calls end in a retry after the documented delay while attempts remain, else in failure. |
| `Pipeline.RunOverLeaves` | ayenitd/executor.go:155-161 | With the run over, an error leaves the worker only one call, and that changes nothing in the store. |
| `Pipeline.CancellationStrands` | ayenitd/executor.go:155-161 | In every reachable state, a handler that answers with a cancellation of its own, no context being done, leaves its job running with no owner. |
| `Pipeline.LeavingStrands` | ayenitd/executor.go:134-137 | So does every attempt whose last update fails. |
| `Pipeline.SubmissionIsStranded` | ayenitd/executor.go:155-161 | Every valid submission has a run, without crash or shutdown, to such a state. |
| `Pipeline.StrandedUntilCrash` | ayenitd/executor.go:155-161 | A job left running with no owner keeps its record in every continuation without a crash. |
| `Pipeline.EndsTerminalExactly` | ayenitd/executor.go:91-230 | Every run without crashes that leaves no call to be made for a job ends with it completed or failed if and only if no attempt of this job met the guard or had its last update fail. |
| `Pipeline.BootedIsInHand` | jobs/doc.go:12-14 | After a boot, with whatever handlers, every job with a colon-free id is queued or terminal, so the previous result applies to it. |
| `Runner.Process.ClaimFile` | ayenitd/spool.go:207-222 | Reads a pending file and renames it into claimed/, or leaves it where it is. |
| `Runner.Process.IngestFile` | ayenitd/spool.go:207-263 | One file through ingest: without faults it leaves its directory, its correlate id is known or the file is in failed/; other claimed files stay. |
| `Runner.Process.Record` | ayenitd/spool.go:229-246 | A store failure leaves the file for later; a created or already known id counts as recorded. |
| `Runner.Process.DrainOnce` | ayenitd/spool.go:168-199 | A pass, possibly cut short by a cancelled context, takes only legal actions; without faults no job file is left in pending/ or claimed/, and each one that was pending, or left claimed, is in the store or in failed/. |
| `Runner.Process.ClaimJob` | ayenitd/executor.go:65-87 | A worker gets the waiting job that goes first by priority, creation and id, of the first queue that has one, with its attempt raised by one; or none waits and nothing changes. |
| `Runner.Process.CallHandler` | ayenitd/executor.go:113-122 | A job with a token whose checkpoint is stored reaches the handler with that checkpoint's id. |
| `Runner.Process.SaveAttempt` | ayenitd/executor.go:123-172 | The handler's checkpoint is stored before any transition of the record. |
| `Runner.Process.RunAttempt` | ayenitd/executor.go:91-176 | The record changes if and only if the update goes through, the clock is not before the job's creation, and not: the kind has a handler, it failed, and the run is over or the error is a cancellation not explained by a timeout that ran out. It then is, field by field, completed, failed or queued after the documented delay; no other record changes. |
| `Runner.Process.FailAttempt` | ayenitd/executor.go:181-223 | A retry is queued with its delay, and with the token if a checkpoint is stored; else the job has failed for good; field by field, and no other record changes. |
| `DoomLoop.TrimmingLosesNothing` | capability/registry/doom_loop.go:104-186 | Over every trace of checks, results and resets, the trimmed detector gives the same verdicts, kinds, counts and evidence as one keeping everything. |
| `DoomLoop.CountersMeanWhatTheySay` | capability/registry/doom_loop.go:140-203 | The streak, the stall counter and the set of modified paths equal their definitions over all results since the last reset. |
| `DoomLoop.VerdictIsRight` | capability/registry/doom_loop.go:104-138 | After every trace the verdict is the right answer just described, by the calls recorded and the results reported. |
| `DoomLoop.NoResultIsForgotten` | capability/registry/doom_loop.go:140-186 | After every trace the full history holds every message and every path reported since the last reset, in order. |
| `DoomLoop.NoLoopIsEverAdmitted` | capability/registry/doom_loop.go:104-255 | In every trace without resets whose results each find their call's record open, overlapping calls included, admitted calls never hold IdenticalCallThreshold equal calls in a row, nor an alternating window of even size ≥ 4. |
| `DoomLoop.AlternationIsPaired` | capability/registry/doom_loop.go:104-158 | An agent that waits for each result always produces such a trace, whatever it attempts. |
| `DoomLoop.SameAdmitted` | capability/registry/doom_loop.go:257-272 | Over every trace trimming changes neither which calls are admitted nor which results find their call. |
| `DoomLoop.OverlappingCallsEscape` | capability/registry/doom_loop.go:140-158 | For every threshold of at least two, any two calls and any path, a trace in which every result answers its own call gets as many equal calls through as the threshold forbids. |
| `DoomLoop.RepetitionIsPreventedExactly` | capability/registry/doom_loop.go:104-225 | Repetition is prevented in all traces in which every result answers its own call if and only if the threshold is one. |
| `DoomLoop.Normalized` | capability/registry/doom_loop.go:85-102 | Missing thresholds become 3, 6, 4 and 30, given ones stand, so every detector runs with positive ones. |
| `DoomLoop.HashSeparates` | capability/registry/doom_loop.go:274-296 | Two calls hash alike if and only if their arguments are the same. |
| `DoomLoop.PathPrecedence` | capability/registry/doom_loop.go:309-318 | The modified path is that of the first of the four fields of the data that names one. |
| `DoomLoop.PathFallback` | capability/registry/doom_loop.go:319-338 | With none there, it is the first of the listed paths, or else such a field of the metadata. |
| `DoomLoop.ErrorMeans` | capability/registry/doom_loop.go:298-307 | An error counts trimmed, up to 120 characters, and not at all if blank. |
| `DoomLoop.ReportMeans` | capability/registry/doom_loop.go:340-354 | Output is coordination progress if and only if it comes from a coordination target without error and is not empty. |
| `DoomLoop.Detector.CheckCall` | capability/registry/doom_loop.go:104-138 | Over the whole trace: a call is refused if and only if it would complete a window of equal or of alternating calls, or the results end in enough equal errors, or in enough results without progress; kind, count and evidence are those of the first of these. Only an admitted call is recorded. |
| `DoomLoop.Detector.DetectIdentical` | capability/registry/doom_loop.go:205-225 | The loop finds exactly the histories that end in equal calls. |
| `DoomLoop.Detector.DetectOscillation` | capability/registry/doom_loop.go:227-255 | The loop finds exactly the histories that end in an alternating window. |
| `DoomLoop.Detector.RecordResult` | capability/registry/doom_loop.go:140-186 | Reads error, path and coordination off the tool result and updates history and counters; the window stays that of the unbounded detector. |
| `DoomLoop.Detector.Clear` | capability/registry/doom_loop.go:192-203 | Reset forgets everything. |
| `Selectors.CompileSelector` | capability/registry/selector_compile.go:109-127 | The loops build the sets the compiled selector is defined by. |
| `Selectors.BuildDescriptorProfile` | capability/registry/selector_compile.go:60-107 | The loops build the profile of a descriptor. |
| `Selectors.NormalizedStringSet` | capability/registry/selector_compile.go:240-252 | The set of the non-blank values, normalized. |
| `Selectors.CriteriaAreIndependent` | capability/registry/capability_policy_eval.go:45-102 | A selector matches if and only if each of its fifteen criteria does on its own. |
| `Selectors.IdentityCriteria` | capability/registry/capability_policy_eval.go:45-54 | Ids and names match up to case or if the criterion is blank, kinds exactly. |
| `Selectors.TagCriteria` | capability/registry/capability_policy_eval.go:58-63 | All wanted tags are there and none of the excluded ones, up to case and outer white space; a blank tag never is. |
| `Selectors.ClassCriteria` | capability/registry/capability_policy_eval.go:55-75 | Family, scope and trust class are among the listed ones; some listed risk or effect is present. |
| `Selectors.CoordinationCriteria` | capability/registry/capability_policy_eval.go:76-101 | Coordination criteria need coordination metadata that meets them. |
| `Selectors.MutationRisks` | governance/risk/risk.go:37-48 | Mutation of files is destructive and spawning executes; nothing else is either. |
| `Selectors.NetworkRisks` | governance/risk/risk.go:37-76 | Network and exfiltration risk come together, with egress, external state or a remote scope. |
| `Selectors.SessionRisks` | governance/risk/risk.go:49-76 | Credential risk comes with use or a provider, session risk with creation, a workspace or a remote. |
| `Selectors.ReadOnlyRisk` | governance/risk/risk.go:37-65 | Read-only is exactly what has none of the six effects. |
| `Selectors.CompilationMeaning` | capability/registry/selector_compile.go:168-234 | For every selector and descriptor, the compiled match is the plain match of the selector without blank entries on the descriptor with trimmed id and name. |
| `Selectors.MatchersAgree` | capability/registry/capability_policy_eval.go:45-102 | For validated selectors and descriptors with trimmed or blank id and name the two matchers agree. |
| `Selectors.DescriptorsThatAgree` | capability/registry/capability_selector_helpers.go:157-189 | They agree for all validated selectors on exactly those descriptors. |
| `Selectors.ValidatedCriteria` | capability/registry/capability_selector_helpers.go:157-250 | Validation refuses blank ids, names, tags and task types, unknown scopes, families and modes, and nothing else in these fields. |
| `Selectors.ValidatedClasses` | capability/registry/capability_selector_helpers.go:157-250 | The same for effects, risks and the two switches. |
| `Selectors.ValidatedIdentities` | capability/registry/capability_selector_helpers.go:157-250 | The same for trust classes and roles. |
| `Selectors.UntrimmedIdDiffers` | capability/registry/capability_policy_eval.go:45-50 | A descriptor with an untrimmed id is told apart by a selector for its id. |
| `Selectors.UntrimmedNameDiffers` | capability/registry/capability_policy_eval.go:49-54 | The same for names. |
| `Selectors.BlankTagDiffers` | capability/registry/selector_compile.go:240-252 | A selector of one blank tag matches nothing plainly and everything compiled; validation refuses it. |
| `Policies.EffectiveCapabilityPolicy` | capability/registry/capability_registry_policy.go:578-597 | The fold with its early exit is the join of the levels of all matching policies. |
| `Policies.EffectiveClassPolicy` | capability/registry/capability_registry_policy.go:599-616 | The fold over labels in map order is the join over the label set. |
| `Policies.JoinIsUnique` | capability/registry/capability_registry_policy.go:557-616 | A set of levels has one join in unset < allow < ask < deny. |
| `Policies.LevelsInOrder` | capability/registry/capability_registry_policy.go:578-616 | unset < allow < ask < deny; an unknown level counts as unset. |
| `Policies.OrderDoesNotMatter` | capability/registry/capability_registry_policy.go:599-616 | Any orders and repetitions of the same labels give the same level. |
| `Policies.EffectiveInsertionDecision` | capability/registry/capability_policy_eval.go:15-43 | The most restrictive of the envelope's own (or default) action and all matching policies, so never laxer than the envelope; without policies the envelope's own decision stands; a missing envelope is denied; approval, reason and policy snapshot are as the rules say. |
| `Policies.ActionsInOrder` | capability/result/result.go:376-391 | direct < summarized < metadata-only < approval < denied, and anything unknown counts as denied. |
| `Policies.DefaultsByTrust` | capability/result/result.go:166-173 | By default trusted output goes in directly; generated and remotely approved output is summarized. |
| `Policies.DefaultsOfUntrusted` | capability/result/result.go:174-176 | Untrusted output goes in as metadata only. |
| `Policies.DefaultsByDisposition` | capability/result/result.go:177-185 | For every other trust class the disposition decides. |
| `Policies.TieOverrides` | capability/registry/capability_policy_eval.go:15-43 | A matching policy just as restrictive as the envelope counts as overriding it. |
| `Policies.BuildContentBlockInsertions` | capability/result/result.go:281-324 | One insertion per present block, in order: text, structured and error blocks as decided, resources and binary content as metadata without approval unless the decision is stricter. |
| `Policies.PresentExactly` | capability/result/result.go:281-300 | Every block but a missing one is inserted, as often as it was given. |
| `Registry.BareNameOfCapability` | capability/registry/vocabulary.go:10-23 | An id "ns:cap.name" has the bare name "name". |
| `Registry.BareNameOfOther` | capability/registry/vocabulary.go:14-23 | Any other id has what follows its last colon. |
| `Registry.BareNameReachable` | capability/registry/registry.go:785-815 | With exact indexes, an entry is found by its bare name, under any spelling, if and only if the bare name is its own normalized form. |
| `Registry.MixedCaseBareNameIsMissed` | capability/registry/registry.go:580-593 | For every other bare name: a fresh registry accepts the capability, and looking the name up finds nothing. |
| `Registry.TestRunIsMissed` | capability/registry/vocabulary.go:10-23 | `ns:cap.Test_Run` is such a capability. |
| `Registry.SameAsRebuilt` | capability/registry/registry.go:314-340 | An index kept up to date holds, under every key, the same ids as often as one built from scratch. |
| `Registry.IndexIsScan` | capability/registry/registry.go:342-359 | An id stands under a key if and only if its entry answers to it. |
| `Registry.RunKeeps` | capability/registry/registry.go:464-495 | A batch never replaces or removes an entry. |
| `Registry.RunAddsAdmitted` | capability/registry/registry.go:464-495 | Every new entry is that of an item the allowlist admits. |
| `Registry.IndexedExtends` | capability/registry/registry.go:342-359 | Registration only adds holders at the end of a name's list, so the first holder keeps the name. |
| `Registry.FailedBatchKeepsBeginning` | capability/registry/registry.go:464-495 | A failed batch leaves exactly what its longest accepted beginning would. |
| `Registry.BatchExactly` | capability/registry/registry.go:464-495 | The outcome of every batch, under every allowlist, is the one described for RegisterBatch, by its items alone. |
| `Registry.BatchSucceedsExactly` | capability/registry/registry.go:464-495 | A batch succeeds if and only if none of its items is faulty, and then registers exactly the ones let in. |
| `Registry.JudgedAsFaulty` | capability/registry/registry.go:512-687 | At every place of a batch, the item is rejected if and only if it is faulty, and registered if and only if it is not and is let in. |
| `Registry.EntryNames` | capability/registry/registry.go:557-687 | Only tools and invocable handlers have a bare name, and only tools a tool name. |
| `Registry.ToolIdentity` | capability/descriptor/descriptor.go:116-207 | A tool goes by the id it provides, else by its capability id, else by its name. |
| `Registry.RegisteredCoherent` | capability/registry/registry.go:342-377 | Registering a new entry keeps all maps and indexes coherent. |
| `Registry.CapabilityRegistry.RebuildIndexes` | capability/registry/registry.go:314-340 | In whatever order entries come, the result is exact for names and tools. |
| `Registry.CapabilityRegistry.RegisterEntry` | capability/registry/registry.go:342-377 | Adds the entry to every map and index and keeps them coherent. |
| `Registry.CapabilityRegistry.Prepare` | capability/registry/registry.go:512-687 | Decides by the indexes exactly as a scan of the entries would; an item outside the allowlist is skipped. |
| `Registry.CapabilityRegistry.RegisterBatch` | capability/registry/registry.go:464-495 | By the items alone: succeeds if and only if no item is faulty, that is malformed, failing admission, or repeating an id, tool name or (if admitted) bare name already taken or claimed earlier in the batch. The entries become the old ones and exactly those of the items before the first faulty one that tool admission and the allowlist let in; an item these keep out is skipped without failing the batch. Coherence survives a failure midway; no name changes its first holder. |
| `Registry.CapabilityRegistry.RestrictToCapabilities` | capability/registry/capability_registry_policy.go:529-556 | Exactly the admitted entries remain, in all maps and indexes. |
| `Registry.CapabilityRegistry.SetAllowedCapabilities` | capability/registry/capability_registry_policy.go:74-94 | Restricts now and later; after an empty list the registry is empty and nothing is restricted any more. |
| `Registry.AdmitsAsPlain` | capability/registry/capability_registry_policy.go:529-556 | For validated selectors and trimmed identities the allowlist admits exactly what some selector plainly matches, and everything if it is empty. |
| `Registry.CapabilityRegistry.HasLocalTool` | capability/registry/registry.go:195-206 | The tool index answers as a scan of the tools would. |
| `Registry.CapabilityRegistry.Resolve` | capability/registry/registry.go:796-807 | Finds by id, then by name or bare name, exactly if a scan does. |
| `Registry.CapabilityRegistry.GetCapability` | capability/registry/registry.go:785-815 | Succeeds if and only if a scan by id, name or bare name, or else by alias, does, and returns the entry of that id or the first holder in the index; the model's aliases go before the built-in ones. |
| `Rollback.GapsAddUp` | capability/registry/rollback.go:42-52 | Tokens stored in order: k live places further on is at least k stores later. |
| `Rollback.AgreeAppend` | capability/registry/rollback.go:64-77 | Appending keeps list and map in agreement if and only if no live token has the id. |
| `Rollback.EvictionIsLate` | capability/registry/rollback.go:125-134 | A token is evicted only when 64 have been stored after it, the new one included. |
| `Rollback.UnspentIsLive` | capability/registry/rollback.go:79-95 | With no live id reused, a stored token not taken, not evicted and in its window is the live entry of its id. |
| `Rollback.ReuseLosesTheNewer` | capability/registry/rollback.go:62-123 | For all ids: store twice under one id, store another when the first window ends, and taking the id finds nothing although its newer token is neither taken, evicted nor past its window. |
| `Rollback.Ring.Sweep` | capability/registry/rollback.go:115-123 | Dropping expired entries from the front leaves none that has expired, scrubs those dropped, and takes exactly their ids out of the map. |
| `Rollback.Ring.Store` | capability/registry/rollback.go:62-77 | For every id: keeps order, record, scrubbing and at most 64 tokens, each for 15 minutes; only expired tokens and at most one evicted from a full ring go, and their ids from the map; agreeing indexes still agree if and only if the id was unheld. |
| `Rollback.Ring.Take` | capability/registry/rollback.go:79-95 | Hands out only a token that was stored, is untaken, unevicted and in its window, with its payload intact, and never again; with no live id reused, every such token. |
| `Glob.SplitGlob` | capability/ports/provenance.go:127-142 | The loop yields the literal runs between stars. |
| `Glob.IndexFold` | capability/ports/provenance.go:158-165 | The first place where the text occurs, ignoring ASCII case, or none. |
| `Glob.LeftmostSuffices` | capability/ports/provenance.go:108-124 | If the remaining literals fit at all they fit with the next one at its leftmost place. |
| `Glob.MatchGlob` | capability/ports/provenance.go:86-125 | Accepts if and only if some decomposition into the literals in order exists. |
| `Glob.AnchoredPatternsAreExact` | capability/ports/provenance.go:86-184 | For every pattern with a star and literal ends, acceptance is the pattern's meaning. |
| `Glob.LeadingStarIsForgotten` | capability/ports/provenance.go:127-142 | For every pattern with a leading star and a literal end, a path that it means and the code refuses. |
| `Glob.TrailingStarIsForgotten` | capability/ports/provenance.go:127-142 | The same for every pattern with a trailing star. |
| `Glob.AgreementIsExact` | capability/ports/provenance.go:86-184 | Code and meaning agree on all paths if and only if the pattern is of a faithful form. |
| `Splitter.PartialAnswerStands` | capability/fs/files.go:960-984 | An answer on part of the data is the answer on all of it. |
| `Splitter.DeliveryDoesNotMatter` | capability/fs/files.go:960-984 | Every way of delivering a stream yields the same tokens. |
| `Splitter.FullBufferYields` | capability/fs/files.go:957-984 | A full buffer always yields a token and advances. |
| `Splitter.NothingIsLost` | capability/fs/files.go:960-984 | Tokens and dropped separators in order give the stream back. |
| `Splitter.TokensAreProper` | capability/fs/files.go:960-984 | Each token is at most maxChunk bytes without newline; only a newline and the carriage return before it is dropped. |
| `Splitter.LinesExactlyWhenTheyFit` | capability/fs/files.go:957-984 | The tokens are those of plain line scanning if and only if every line fits. |
| `Splitter.TokenCount` | capability/fs/files.go:960-984 | There are never fewer tokens than lines, and more as soon as a line does not fit. |
| `Splitter.FullLineYieldsExtraToken` | capability/fs/files.go:966-975 | Every line of exactly maxChunk bytes, for every maxChunk and whatever follows, yields an extra empty token. |
| `EditRecord.HunkReadsBack` | capability/registry/edit_record.go:139-163 | For every two different texts, both are read back from the printed hunk. |
| `EditRecord.BuildUnifiedHunk` | capability/registry/edit_record.go:139-163 | The loops print that hunk, and nothing for equal texts. |
| `EditRecord.FixedParts` | capability/registry/edit_record.go:139-163 | The fixed parts are the text "@@ -1,", " +1,", " @@" and the marks "-" and "+". |
| `EditRecord.HunkOfOneLine` | capability/registry/edit_record.go:139-163 | A change of one line to another prints a header for one line each, the old line, then the new one. |
| `EditRecord.JoinLines` | capability/registry/edit_record.go:150-160 | Joining the lines of a text gives it back. |
| `EditRecord.HeaderAgreesWithCount` | capability/registry/edit_record.go:165-174 | The header's line count equals the stored one if and only if the text is non-empty and does not end in a newline; else it is one more. |
| `EditRecord.CapPreview` | capability/registry/edit_record.go:188-197 | Cuts at the last character start within 2048 bytes, exactly when longer. |
| `EditRecord.CutIsCleanAndTight` | capability/registry/edit_record.go:188-197 | For valid UTF-8 (section 4 of RFC 3629) the cut is valid UTF-8 and gives up at most 3 bytes. |
| `Budget.SortStable` | telemetry/artifact_budget.go:308-310 | Sorting by priority keeps the order of equal priorities. |
| `Budget.CompressionBooks` | telemetry/artifact_budget.go:311-336 | Items the pass did not reach are dropped and stay charged, token for token. |
| `Budget.CompressedItems` | telemetry/artifact_budget.go:298-336 | The pass goes by descending priority, and each item it visits that can be compressed is replaced by its compressed form. |
| `Budget.CompressionKeepsCover` | telemetry/artifact_budget.go:300-336 | Compression never lets the charge fall below the tracked items. |
| `Budget.MadeRoomKeeps` | telemetry/artifact_budget.go:249-336 | Making room, successful or not, conserves the total of limits, keeps categories within limits and charges above items. |
| `Budget.BorrowedExactly` | telemetry/artifact_budget.go:269-298 | The amount borrowed is the smaller of what is asked for and the sum of what eligible categories have to spare beforehand. |
| `Budget.BorrowedMeans` | telemetry/artifact_budget.go:266-296 | In plain numbers: who gives is unreserved and keeps the minimum free; short only if nobody unreserved has more than that; higher priority is asked dry before lower gives. |
| `Budget.RoomExactly` | telemetry/artifact_budget.go:249-336 | By the state before, for every state: room is made if and only if it is there, or others have the shortfall to spare and borrowing is allowed, or the pass saves all of it and the charge then left, not below zero, fits the raised limit. |
| `Budget.CoveredIsCompressible` | telemetry/artifact_budget.go:311-336 | For a charge that covers its items the last case is just: some first part of the items compresses by the whole shortfall. |
| `Budget.UncoveredIsRefused` | telemetry/artifact_budget.go:329-336 | A charge below its item: the pass saves more than enough and the request is refused. |
| `Budget.RefusedThoughItFitsExactly` | telemetry/artifact_budget.go:258-266 | By the state before, for every state: a request is refused although it now fits if and only if neither borrowing nor compression covers the shortfall and the charge after compression fits the limit after borrowing. |
| `Budget.RefusedThoughItFits` | telemetry/artifact_budget.go:258-266 | An instance: two tokens lent, three saved, five missing. |
| `Budget.StaleExactly` | telemetry/artifact_budget.go:155-158 | After a refusal, in every state, the usage snapshot is still right if and only if nothing was there to borrow and the pass saved nothing or saw all items of a category charged with nothing. |
| `Budget.FreedCovers` | telemetry/artifact_budget.go:170-193 | A free keeps charges above items, exactly unless raw tokens are freed beyond what items leave. |
| `Budget.FreeUndoesCharge` | telemetry/artifact_budget.go:155-193 | Freeing an item by its id undoes charging it. |
| `Budget.WithoutExactly` | telemetry/artifact_budget.go:177-186 | Every item of the id goes, every other stays as often as it was. |
| `Budget.ArtifactBudget.constructor` | telemetry/artifact_budget.go:109-135 | Starts with empty categories within their limits and a matching snapshot. |
| `Budget.ArtifactBudget.RecomputeAllocations` | telemetry/artifact_budget.go:356-387 | Limits are the truncated shares, at least the minimum; priorities are distinct; the system category is reserved. |
| `Budget.LimitMeans` | telemetry/artifact_budget.go:356-372 | A limit is the share of what the system leaves, rounded down, or the minimum if that is more. |
| `Budget.ArtifactBudget.UpdateUsage` | telemetry/artifact_budget.go:389-419 | The snapshot gives each category's limit, charge, items and share, and sums the categories in whatever order they come. |
| `Budget.ArtifactBudget.BorrowTokens` | telemetry/artifact_budget.go:269-298 | The total is conserved, only unreserved donors give and keep the minimum free, higher priorities first, and it falls short only if nobody has any to spare; all of this also in plain numbers. |
| `Budget.ArtifactBudget.Compress` | telemetry/artifact_budget.go:300-336 | Visits items by priority and stops exactly where enough is saved. |
| `Budget.ArtifactBudget.EnsureCapacity` | telemetry/artifact_budget.go:249-267 | At once, by borrowing the shortfall, or by then compressing all of it. |
| `Budget.ArtifactBudget.Allocate` | telemetry/artifact_budget.go:139-166 | Conserves the total and charges exactly; a refusal may move limits and does not refresh the usage snapshot; as long as no item with a negative count was tracked, limits hold, and item-only use keeps charges above items. |
| `Budget.ArtifactBudget.Free` | telemetry/artifact_budget.go:168-193 | Removes every item of the id with its charge or releases raw tokens, never below zero. |

## Left out

- The event log, telemetry, listeners and lock handling: no property here depends on them.
- fsync, JSON syntax, random ids and clock reads: durable atomic steps, a round-tripping codec, fresh ids and time parameters stand for them.
- What handlers do: any answer, checkpoint or cancellation is possible.
- The store's conflict retries, `List`, `Load` and `Events`: reads and retries around the transactions that are modelled.
- `JobStore.Database.ClaimNext`: models claims of one job, the only number the executor asks for.
- `Runner.Process.DrainOnce`: files arriving during a pass and the debris sweep of pending/ are actions of `Pipeline`, not part of this loop.
- Descriptor normalization beyond id and name, handler wrapping, permission stamping and the outcome of tool admission: given with the item.
- `Registry.CapabilityRegistry.RebuildIndexes`: the order of several holders of one name is left open, since entries come in map order.
- Floating-point rounding in shares and percentages: reals are used.
- `Rollback.Ring.Take`: once a live id was reused, only that what is handed out was rightly handed out is promised, since the map may have lost tokens.
- Letters and white space beyond ASCII in folding and trimming.
- Sandboxes, path resolution, the other file tools, regular-expression globs, permission and approval engines, allowlist views, the terminal interface: foreign processes, host I/O or thin delegation.
