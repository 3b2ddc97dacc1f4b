/** The durable jobs pipeline as one transition system: producers, the ingest loop, the
    workers and the boot sequence interleave freely, any call may fail, and a crash may fall
    between any two actions. The theorems quantify over every run from the empty state. */
module Pipeline {
  import opened Options
  import opened Text
  import opened Jobs
  import opened JobStore
  import opened Spool
  import opened Executor

  datatype Sys = Sys(dirs: Dirs, exec: Exec)

  function Init(handlers: set<string>): Sys {
    Sys(NO_FILES, Exec(handlers, EMPTY, Down, map[], map[], map[]))
  }

  datatype Action =
    | ByProducer(produce: Produce)
    | ByWatcher(watch: Watch)
    | ByIngest(ingest: Ingest)
    | ByBoot(boot: Boot)
    | ByWorker(work: Work)
    | Crash

  ghost predicate Enabled(s: Sys, a: Action) {
    match a
    case ByProducer(p) => ProduceEnabled(s.dirs, p)
    case ByWatcher(w) => s.exec.phase.Up? && WatchEnabled(s.dirs, w)
    case ByIngest(i) => s.exec.phase.Up? && IngestEnabled(s.dirs, s.exec.store, i)
    case ByBoot(b) => BootEnabled(s.exec, b)
    case ByWorker(k) => WorkEnabled(s.exec, k)
    case Crash => true
  }

  ghost function Apply(s: Sys, a: Action): Sys
    requires Enabled(s, a)
  {
    match a
    case ByProducer(p) => s.(dirs := ApplyProduce(s.dirs, p))
    case ByWatcher(w) => s.(dirs := ApplyWatch(s.dirs, w))
    case ByIngest(i) =>
      Sys(ApplyIngest(s.dirs, i), s.exec.(store := IngestedStore(s.dirs, s.exec.store, i)))
    case ByBoot(b) => s.(exec := ApplyBoot(s.exec, b))
    case ByWorker(k) => s.(exec := ApplyWork(s.exec, k))
    case Crash => Sys(s.dirs.(watcher := Idle), Crashed(s.exec))
  }

  ghost predicate ValidRun(s: Sys, run: seq<Action>)
    decreases |run|
  {
    run == [] || (Enabled(s, run[0]) && ValidRun(Apply(s, run[0]), run[1..]))
  }

  ghost function After(s: Sys, run: seq<Action>): Sys
    requires ValidRun(s, run)
    decreases |run|
  {
    if run == [] then s else After(Apply(s, run[0]), run[1..])
  }

  // ----- the invariant -----

  ghost predicate Inv(s: Sys) {
    && SpoolInv(s.dirs, s.exec.store) && ExecInv(s.exec)
    && (!s.exec.phase.Up? ==> s.dirs.watcher == Idle)
  }

  lemma SpoolFrame(d: Dirs, s: Store, t: Store)
    requires SpoolInv(d, s) && SameSpecs(s, t)
    ensures SpoolInv(d, t)
  {
    forall id | id in t.jobs ensures JobSourced(d, t.jobs[id]) {
      assert JobSourced(d, s.jobs[id]);
    }
  }

  lemma SpoolCrash(d: Dirs, s: Store)
    requires SpoolInv(d, s)
    ensures SpoolInv(d.(watcher := Idle), s)
  {
    var t := d.(watcher := Idle);
    forall n | n in t.submits ensures SubmitOk(t, n) { assert SubmitOk(d, n); }
    forall c | c in t.accepted ensures ReceiptOk(t, s.correlate.Keys, c) {
      assert ReceiptOk(d, s.correlate.Keys, c);
    }
  }

  lemma StepPreserves(s: Sys, a: Action)
    requires Inv(s) && Enabled(s, a)
    ensures Inv(Apply(s, a))
  {
    match a
    case ByProducer(p) =>
      ProducePreserves(s.dirs, s.exec.store, p);
      ProduceKeepsWatcher(s.dirs, p);
    case ByWatcher(w) => WatchPreserves(s.dirs, s.exec.store, w);
    case ByIngest(i) =>
      IngestPreserves(s.dirs, s.exec.store, i);
      IngestKeepsExec(s.exec, s.dirs, i);
    case ByBoot(b) =>
      BootPreserves(s.exec, b);
      SpoolFrame(s.dirs, s.exec.store, ApplyBoot(s.exec, b).store);
    case ByWorker(k) =>
      WorkPreserves(s.exec, k);
      WorkKeepsStore(s.exec, k);
      WorkKeepsPhase(s.exec, k);
      SpoolFrame(s.dirs, s.exec.store, ApplyWork(s.exec, k).store);
    case Crash =>
      SpoolCrash(s.dirs, s.exec.store);
      CrashPreserves(s.exec);
  }

  lemma ProduceKeepsWatcher(d: Dirs, p: Produce)
    requires ProduceEnabled(d, p)
    ensures ApplyProduce(d, p).watcher == d.watcher
  {}

  ghost predicate ReachedBy(handlers: set<string>, run: seq<Action>, s: Sys) {
    ValidRun(Init(handlers), run) && After(Init(handlers), run) == s
  }

  /** Some run from the empty state ends here. */
  ghost predicate Reachable(s: Sys) {
    exists handlers, run :: ReachedBy(handlers, run, s)
  }

  lemma {:induction false} RunPreserves(s: Sys, run: seq<Action>)
    requires Inv(s) && ValidRun(s, run)
    ensures Inv(After(s, run))
    decreases |run|
  {
    if run != [] {
      StepPreserves(s, run[0]);
      RunPreserves(Apply(s, run[0]), run[1..]);
    }
  }

  lemma ReachableInv(s: Sys)
    requires Reachable(s)
    ensures Inv(s)
  {
    var handlers, run :| ReachedBy(handlers, run, s);
    assert Inv(Init(handlers));
    RunPreserves(Init(handlers), run);
  }

  lemma {:induction false} RunAppend(s: Sys, run: seq<Action>, a: Action)
    requires ValidRun(s, run) && Enabled(After(s, run), a)
    ensures ValidRun(s, run + [a]) && After(s, run + [a]) == Apply(After(s, run), a)
    decreases |run|
  {
    if run == [] {
      assert run + [a] == [a];
      assert ValidRun(Apply(s, a), [a][1..]);
    } else {
      RunAppend(Apply(s, run[0]), run[1..], a);
      assert (run + [a])[1..] == run[1..] + [a];
    }
  }

  lemma ReachableStep(s: Sys, a: Action)
    requires Reachable(s) && Enabled(s, a)
    ensures Reachable(Apply(s, a))
  {
    var handlers, run :| ReachedBy(handlers, run, s);
    RunAppend(Init(handlers), run, a);
    assert ReachedBy(handlers, run + [a], Apply(s, a));
  }

  lemma {:induction false} ReachableRun(s: Sys, run: seq<Action>)
    requires Reachable(s) && ValidRun(s, run)
    ensures Reachable(After(s, run))
    decreases |run|
  {
    if run != [] {
      ReachableStep(s, run[0]);
      ReachableRun(Apply(s, run[0]), run[1..]);
    }
  }

  // ----- accepted submissions -----

  lemma StepKeepsReceipt(s: Sys, a: Action, c: string)
    requires Reachable(s) && Enabled(s, a) && c in s.dirs.accepted
    ensures c in Apply(s, a).dirs.accepted && Apply(s, a).dirs.accepted[c] == s.dirs.accepted[c]
  {
    ReachableInv(s);
    match a
    case ByProducer(p) => ProduceKeepsReceipt(s.dirs, p, c);
    case ByWatcher(w) => WatchFrame(s.dirs, w);
    case _ =>
  }

  /** Once Submit has reported success the receipt stands for the rest of the run. */
  lemma {:induction false} ReceiptStands(s: Sys, run: seq<Action>, c: string)
    requires Reachable(s) && ValidRun(s, run) && c in s.dirs.accepted
    ensures c in After(s, run).dirs.accepted && After(s, run).dirs.accepted[c] == s.dirs.accepted[c]
    decreases |run|
  {
    if run != [] {
      StepKeepsReceipt(s, run[0], c);
      ReachableStep(s, run[0]);
      ReceiptStands(Apply(s, run[0]), run[1..], c);
    }
  }

  /** From the moment Submit succeeds, in every continuation, the submission is in pending/, in
      claimed/ or in the store, and its file is never in failed/, unless its payload encodes
      as `null`. */
  lemma AcceptedNeverLost(s: Sys, run: seq<Action>, c: string)
    requires Reachable(s) && ValidRun(s, run)
    requires c in s.dirs.accepted && Survives(s.dirs.accepted[c].file)
    ensures var name, end := s.dirs.accepted[c].name, After(s, run);
            && (name in end.dirs.pending || name in end.dirs.claimed || c in end.exec.store.correlate)
            && name !in end.dirs.failed
  {
    ReceiptStands(s, run, c);
    ReachableRun(s, run);
    ReachableInv(After(s, run));
    assert ReceiptOk(After(s, run).dirs, After(s, run).exec.store.correlate.Keys, c);
  }

  /** What the store holds for an accepted submission is what was submitted, and a payload
      that encodes as `null` never gets there at all (no other producer reusing the id). */
  lemma StoredAsSubmitted(s: Sys, c: string)
    requires Reachable(s) && c !in s.dirs.foreign && c in s.exec.store.correlate
    ensures JobID(c) in s.exec.store.jobs && c in s.dirs.accepted
    ensures s.exec.store.jobs[JobID(c)].spec == s.dirs.accepted[c].file.spec
    ensures Survives(s.dirs.accepted[c].file)
  {
    ReachableInv(s);
    assert JobSourced(s.dirs, s.exec.store.jobs[s.exec.store.correlate[c]]);
  }

  /** At most one job per correlate id. */
  lemma OneJobPerCorrelateID(s: Sys, x: string, y: string)
    requires Reachable(s) && x in s.exec.store.jobs && y in s.exec.store.jobs
    requires s.exec.store.jobs[x].spec.correlateID == s.exec.store.jobs[y].spec.correlateID
    ensures x == y
  {
    ReachableInv(s);
  }

  /** Draining the spool, including re-ingesting a file left in claimed/ by a crash, never
      touches a record already in the store. */
  lemma DrainNeverResets(s: Sys, a: Action, id: string)
    requires Enabled(s, a) && (a.ByWatcher? || a.ByIngest? || a.ByProducer?) && id in s.exec.store.jobs
    ensures id in Apply(s, a).exec.store.jobs && Apply(s, a).exec.store.jobs[id] == s.exec.store.jobs[id]
  {
    if a.ByIngest? { IngestNeverRewrites(s.dirs, s.exec.store, a.ingest, id); }
  }

  // ----- ownership and terminal states -----

  /** A running job has at most one in-flight owner, and that owner holds the current attempt. */
  lemma SingleOwner(s: Sys, v: string)
    requires Reachable(s) && v in s.exec.workers
    ensures var e := s.exec; var id := e.workers[v].job.id;
            && id in e.store.jobs && e.store.jobs[id].state == Running
            && e.store.jobs[id].attempt == e.workers[v].job.attempt
            && forall w :: w in e.workers && e.workers[w].job.id == id ==> w == v
  {
    ReachableInv(s);
    assert WorkerOk(s.exec, v);
  }

  /** How one action may change the state of a stored job. */
  ghost predicate Allowed(j: Job, k: Job) {
    || k == j
    || (j.state == Queued && k.state == Running && k.attempt == j.attempt + 1 && k.spec == j.spec)
    || (j.state == Running && k.state != Running && k.attempt == j.attempt && k.spec == j.spec)
  }

  lemma FinishAllowed(e: Exec, w: string, now: int, id: string)
    requires WorkersOk(e) && WorkEnabled(e, Finish(w, now)) && id in e.store.jobs
    ensures Allowed(e.store.jobs[id], ApplyWork(e, Finish(w, now)).store.jobs[id])
  {
    assert WorkerOk(e, w);
    OutgoingShape(e.workers[w], now);
  }

  lemma WorkAllowed(e: Exec, k: Work, id: string)
    requires WorkersOk(e) && WorkEnabled(e, k) && id in e.store.jobs
    ensures id in ApplyWork(e, k).store.jobs && Allowed(e.store.jobs[id], ApplyWork(e, k).store.jobs[id])
  {
    match k
    case Claim(w, x, now) =>
    case Finish(w, now) => FinishAllowed(e, w, now, id);
    case SelfSave(_) =>
    case _ => assert ApplyWork(e, k).store.jobs == e.store.jobs;
  }

  lemma BootAllowed(e: Exec, b: Boot, id: string)
    requires BootEnabled(e, b) && id in e.store.jobs
    ensures id in ApplyBoot(e, b).store.jobs && Allowed(e.store.jobs[id], ApplyBoot(e, b).store.jobs[id])
  {
    if b.BootRecover? { BootRecoverShape(e); }
  }

  lemma StepAllowed(s: Sys, a: Action, id: string)
    requires Reachable(s) && Enabled(s, a) && id in s.exec.store.jobs
    ensures id in Apply(s, a).exec.store.jobs
    ensures Allowed(s.exec.store.jobs[id], Apply(s, a).exec.store.jobs[id])
  {
    match a
    case ByIngest(i) => DrainNeverResets(s, a, id);
    case ByBoot(b) => BootAllowed(s.exec, b, id);
    case ByWorker(k) =>
      assert WorkersOk(s.exec) by { ReachableInv(s); }
      WorkAllowed(s.exec, k, id);
    case _ =>
  }

  /** A completed or failed job never changes again: its whole record stands. */
  lemma {:induction false} TerminalForever(s: Sys, run: seq<Action>, id: string)
    requires Reachable(s) && ValidRun(s, run)
    requires id in s.exec.store.jobs && s.exec.store.jobs[id].state.Terminal()
    ensures id in After(s, run).exec.store.jobs
    ensures After(s, run).exec.store.jobs[id] == s.exec.store.jobs[id]
    decreases |run|
  {
    if run != [] {
      StepAllowed(s, run[0], id);
      ReachableStep(s, run[0]);
      TerminalForever(Apply(s, run[0]), run[1..], id);
    }
  }

  /** Over whole runs nothing sets a job back: its spec stays and its attempts never decrease,
      however often its submission is ingested again. */
  lemma {:induction false} NeverReset(s: Sys, run: seq<Action>, id: string)
    requires Reachable(s) && ValidRun(s, run) && id in s.exec.store.jobs
    ensures var end := After(s, run).exec.store.jobs;
            id in end && end[id].spec == s.exec.store.jobs[id].spec && end[id].attempt >= s.exec.store.jobs[id].attempt
    decreases |run|
  {
    if run != [] {
      StepAllowed(s, run[0], id);
      ReachableStep(s, run[0]);
      NeverReset(Apply(s, run[0]), run[1..], id);
    }
  }

  // ----- resume tokens -----

  /** A resume token always names the job itself, and its checkpoint is stored: in the record
      and in every attempt in flight. */
  lemma ResumeTokensResolve(s: Sys)
    requires Reachable(s)
    ensures forall id :: id in s.exec.store.jobs && s.exec.store.jobs[id].resumeToken != "" ==>
              s.exec.store.jobs[id].resumeToken == id && id in s.exec.store.checkpoints
    ensures forall w :: w in s.exec.workers && s.exec.workers[w].job.resumeToken != "" ==>
              s.exec.workers[w].job.resumeToken == s.exec.workers[w].job.id &&
              s.exec.workers[w].job.id in s.exec.store.checkpoints
  {
    ReachableInv(s);
    forall id | id in s.exec.store.jobs
      ensures TokenOk(s.exec.store.jobs[id].resumeToken, id, s.exec.store.checkpoints)
    {
      assert JobOk(s.exec, id);
    }
    forall w | w in s.exec.workers
      ensures TokenOk(s.exec.workers[w].job.resumeToken, s.exec.workers[w].job.id, s.exec.store.checkpoints)
    {
      assert WorkerOk(s.exec, w);
    }
  }

  // ----- attempts and requeues -----

  /** A job is requeued at most maxAttempts-1 times, by the executor and by recovery together,
      and never attempted more than maxAttempts times. */
  lemma RequeuesBounded(s: Sys, id: string)
    requires Reachable(s) && id in s.exec.store.jobs
    ensures var e := s.exec; var j := e.store.jobs[id];
            var limit := if j.spec.maxAttempts <= 0 then 1 else j.spec.maxAttempts;
            && Count(e.retries, id) + Count(e.recoveries, id) <= limit - 1
            && 0 <= j.attempt <= limit
  {
    ReachableInv(s);
    assert JobOk(s.exec, id);
  }

  /** No call of a worker requeues a job whose kind its process has no handler for. Other
      processes, before and after, may have other handlers. */
  lemma UnknownNeverRequeued(s: Sys, k: Work, id: string)
    requires Reachable(s) && WorkEnabled(s.exec, k) && id in s.exec.store.jobs
    requires s.exec.store.jobs[id].spec.kind !in s.exec.handlers
    ensures Count(ApplyWork(s.exec, k).retries, id) == Count(s.exec.retries, id)
    ensures s.exec.store.jobs[id].state == Running ==> ApplyWork(s.exec, k).store.jobs[id].state != Queued
  {
    assert WorkersOk(s.exec) by { ReachableInv(s); }
    if k.Finish? {
      FinishUnknown(s.exec, k.worker, k.now, id);
    } else {
      OnlyFinishRequeues(s.exec, k, id);
    }
  }

  lemma OnlyFinishRequeues(e: Exec, k: Work, id: string)
    requires WorkersOk(e) && WorkEnabled(e, k) && !k.Finish? && id in e.store.jobs
    ensures var t := ApplyWork(e, k);
            && t.retries == e.retries && id in t.store.jobs
            && (t.store.jobs[id].state == Queued ==> e.store.jobs[id].state == Queued)
  {
    if !k.Claim? && !k.SelfSave? { MiddleIsLocal(e, k); }
  }

  lemma FinishUnknown(e: Exec, w: string, now: int, id: string)
    requires WorkersOk(e) && WorkEnabled(e, Finish(w, now)) && id in e.store.jobs
    requires e.store.jobs[id].spec.kind !in e.handlers
    ensures var t := ApplyWork(e, Finish(w, now));
            && id in t.store.jobs && Count(t.retries, id) == Count(e.retries, id)
            && (e.store.jobs[id].state == Running ==> t.store.jobs[id].state != Queued)
  {
    assert WorkerOk(e, w);
    OutgoingShape(e.workers[w], now);
  }

  /** Moves a job can still make. */
  function MovesLeft(j: Job): int {
    match j.state
    case Queued => 2 * (MaxAttempts(j) - j.attempt)
    case Running => 2 * (MaxAttempts(j) - j.attempt) + 1
    case _ => 0
  }

  /** State changes of one job along a run. */
  ghost function Moves(s: Sys, run: seq<Action>, id: string): nat
    requires ValidRun(s, run)
    decreases |run|
  {
    if run == [] then 0
    else
      var t := Apply(s, run[0]);
      (if id in s.exec.store.jobs && id in t.exec.store.jobs &&
          s.exec.store.jobs[id].state != t.exec.store.jobs[id].state then 1 else 0)
      + Moves(t, run[1..], id)
  }

  ghost predicate MovedTo(j: Job, k: Job) {
    && k.spec == j.spec && 0 <= MovesLeft(j) <= 2 * MaxAttempts(j)
    && MovesLeft(k) + (if k.state != j.state then 1 else 0) <= MovesLeft(j)
  }

  lemma AllowedMove(j: Job, k: Job, n: nat)
    requires Allowed(j, k) && Budgeted(j, n)
    ensures MovedTo(j, k)
  {}

  lemma StepMoves(s: Sys, a: Action, id: string)
    requires Reachable(s) && Enabled(s, a) && id in s.exec.store.jobs
    ensures id in Apply(s, a).exec.store.jobs
    ensures MovedTo(s.exec.store.jobs[id], Apply(s, a).exec.store.jobs[id])
  {
    StepAllowed(s, a, id);
    var n := Count(s.exec.retries, id) + Count(s.exec.recoveries, id);
    assert Budgeted(s.exec.store.jobs[id], n) by {
      ReachableInv(s);
      assert JobOk(s.exec, id);
    }
    AllowedMove(s.exec.store.jobs[id], Apply(s, a).exec.store.jobs[id], n);
  }

  /** Whatever crashes, a job changes state at most as often as it has moves left, so at most
      twice per allowed attempt over its whole life. */
  lemma {:induction false} MovesBounded(s: Sys, run: seq<Action>, id: string)
    requires Reachable(s) && ValidRun(s, run) && id in s.exec.store.jobs
    ensures Moves(s, run, id) <= MovesLeft(s.exec.store.jobs[id]) <= 2 * MaxAttempts(s.exec.store.jobs[id])
    decreases |run|
  {
    if run == [] {
      StepMoves(s, Crash, id);
    } else {
      StepMoves(s, run[0], id);
      ReachableStep(s, run[0]);
      MovesBounded(Apply(s, run[0]), run[1..], id);
    }
  }

  lemma OutgoingIsLater(a: Attempt, now: int)
    requires a.stage.Requeueing? && a.job.spec.Valid()
    ensures Outgoing(a, now).state == Queued
    ensures Outgoing(a, now).nextAttemptAt.At? && Outgoing(a, now).nextAttemptAt.ns > now
  {
    BackoffOfValidSpec(a.job.spec, a.job.attempt);
  }

  /** Every requeue by a worker is due strictly later than the moment it was decided. */
  lemma RetryIsLater(s: Sys, w: string, now: int)
    requires Reachable(s) && WorkEnabled(s.exec, Finish(w, now)) && s.exec.workers[w].stage.Requeueing?
    ensures var j := ApplyWork(s.exec, Finish(w, now)).store.jobs[s.exec.workers[w].job.id];
            j.state == Queued && j.nextAttemptAt.At? && j.nextAttemptAt.ns > now
  {
    var a := s.exec.workers[w];
    assert a.job.spec.Valid() by {
      ReachableInv(s);
      assert WorkerOk(s.exec, w);
    }
    OutgoingIsLater(a, now);
    assert Outgoing(a, now).id == a.job.id;
  }

  /** So is every requeue by recovery. */
  lemma RecoveryRetryIsLater(s: Sys, id: string, now: int)
    requires Reachable(s) && id in s.exec.store.jobs
    ensures var j := Interrupted(s.exec.store, s.exec.store.jobs[id], now);
            j.state == Queued && s.exec.store.jobs[id].state == Running ==>
              j.nextAttemptAt.At? && j.nextAttemptAt.ns > now
  {
    assert s.exec.store.jobs[id].spec.Valid() by { ReachableInv(s); }
    BackoffOfValidSpec(s.exec.store.jobs[id].spec, s.exec.store.jobs[id].attempt);
  }

  // ----- recovery -----

  /** When a boot completes, no job with a colon-free id is left running. */
  lemma BootLeavesNoneRunning(s: Sys, id: string)
    requires Reachable(s) && s.exec.phase.Booting? && s.exec.phase.todo == []
    requires id in s.exec.store.jobs && ColonFree(id)
    ensures s.exec.store.jobs[id].state != Running
  {
    ReachableInv(s);
  }

  /** A step of the boot sequence, or of a producer meanwhile. */
  predicate BootStep(a: Action) {
    a.ByBoot? || a.ByProducer?
  }

  /** Every record is as it was, or was running and has been restarted. */
  ghost predicate PartlyRestarted(before: Store, after: Store, at: int) {
    && after.checkpoints == before.checkpoints && after.jobs.Keys == before.jobs.Keys
    && forall id :: id in before.jobs ==> KeptOrRestarted(before, after.jobs[id], id, at)
  }

  ghost predicate KeptOrRestarted(before: Store, k: Job, id: string, at: int)
    requires id in before.jobs
  {
    || k == before.jobs[id]
    || (before.jobs[id].state == Running && RestartedAs(before.jobs[id], k, id in before.checkpoints, at))
  }

  lemma RecoverStepRestarts(before: Store, e: Exec)
    requires BootEnabled(e, BootRecover) && PartlyRestarted(before, e.store, e.phase.at)
    requires Identified(before) && forall id :: id in before.jobs ==> before.jobs[id].spec.Valid()
    ensures PartlyRestarted(before, ApplyBoot(e, BootRecover).store, e.phase.at)
  {
    var f, t := e.phase.todo[0], ApplyBoot(e, BootRecover).store;
    RecoverOneFrame(e.store, f.0, f.1, e.phase.at);
    forall id | id in before.jobs ensures KeptOrRestarted(before, t.jobs[id], id, e.phase.at) {
      assert KeptOrRestarted(before, e.store.jobs[id], id, e.phase.at);
      if id == f.1 { RecoverStepOn(before, e.store, f.0, id, e.phase.at); }
    }
  }

  lemma RecoverStepOn(before: Store, s: Store, worker: string, id: string, at: int)
    requires id in before.jobs && before.jobs[id].id == id && before.jobs[id].spec.Valid()
    requires id in s.jobs && s.checkpoints == before.checkpoints && KeptOrRestarted(before, s.jobs[id], id, at)
    ensures KeptOrRestarted(before, RecoverOne(s, worker, id, at).jobs[id], id, at)
  {
    RecoverOneRecord(s, worker, id, at);
  }

  ghost predicate Restarting(before: Store, s: Sys) {
    s.exec.phase.Booting? && PartlyRestarted(before, s.exec.store, s.exec.phase.at)
  }

  lemma BootStepRestarts(before: Store, s: Sys, a: Action)
    requires Restarting(before, s) && Enabled(s, a) && BootStep(a) && Apply(s, a).exec.phase.Booting?
    requires Identified(before) && forall id :: id in before.jobs ==> before.jobs[id].spec.Valid()
    ensures Restarting(before, Apply(s, a))
  {
    if a.ByBoot? && a.boot.BootRecover? { RecoverStepRestarts(before, s.exec); }
  }

  lemma {:induction false} BootRunRestarts(before: Store, s: Sys, run: seq<Action>)
    requires Reachable(s) && ValidRun(s, run) && (forall i :: 0 <= i < |run| ==> BootStep(run[i]))
    requires Restarting(before, s) || (s.exec.phase.Down? && s.exec.store == before)
    requires Identified(before) && forall id :: id in before.jobs ==> before.jobs[id].spec.Valid()
    ensures After(s, run).exec.phase.Booting? ==> Restarting(before, After(s, run))
    decreases |run|
  {
    if run != [] {
      var a := run[0];
      assert BootStep(a);
      var t := Apply(s, a);
      ReachableStep(s, a);
      if t.exec.phase.Up? {
        UpStaysUp(t, run[1..]);
      } else {
        if s.exec.phase.Booting? { BootStepRestarts(before, s, a); }
        BootRunRestarts(before, t, run[1..]);
      }
    }
  }

  lemma {:induction false} UpStaysUp(s: Sys, run: seq<Action>)
    requires ValidRun(s, run) && s.exec.phase.Up? && (forall i :: 0 <= i < |run| ==> BootStep(run[i]))
    ensures After(s, run).exec.phase.Up?
    decreases |run|
  {
    if run != [] {
      assert BootStep(run[0]);
      UpStaysUp(Apply(s, run[0]), run[1..]);
    }
  }

  /** A whole boot, record by record: when it is done exactly the jobs that were running under
      colon-free ids have been restarted, as of the moment of the scan; of the others those with
      no colon are as they were. */
  lemma BootRestarts(s: Sys, run: seq<Action>, id: string)
    requires Reachable(s) && s.exec.phase.Down? && ValidRun(s, run) && (forall i :: 0 <= i < |run| ==> BootStep(run[i]))
    requires After(s, run).exec.phase.Booting? && After(s, run).exec.phase.todo == []
    requires id in s.exec.store.jobs && ColonFree(id)
    ensures var end := After(s, run).exec; var j := s.exec.store.jobs[id];
            && id in end.store.jobs
            && if j.state == Running
               then RestartedAs(j, end.store.jobs[id], id in s.exec.store.checkpoints, end.phase.at)
               else end.store.jobs[id] == j
  {
    var before, end := s.exec.store, After(s, run);
    assert Identified(before) && forall x :: x in before.jobs ==> before.jobs[x].spec.Valid() by { ReachableInv(s); }
    BootRunRestarts(before, s, run);
    ReachableRun(s, run);
    assert KeptOrRestarted(before, end.exec.store.jobs[id], id, end.exec.phase.at);
    BootLeavesNoneRunning(end, id);
  }

  ghost predicate Unowned(e: Exec, id: string) {
    forall w :: w in e.workers ==> e.workers[w].job.id != id
  }

  /** A running job nobody works on. */
  ghost predicate Orphan(e: Exec, id: string) {
    id in e.store.jobs && e.store.jobs[id].state == Running && Unowned(e, id)
  }

  lemma MiddleKeepsOrphan(e: Exec, t: Exec, v: string, id: string)
    requires OnlyWorker(e, t, v) && Orphan(e, id)
    ensures Orphan(t, id) && t.store.jobs[id] == e.store.jobs[id]
  {}

  lemma FinishKeepsOrphan(e: Exec, w: string, job: Job, id: string)
    requires w in e.workers && job.id == e.workers[w].job.id && job.id in e.store.jobs && Orphan(e, id)
    ensures Orphan(ApplyFinish(e, w, job), id) && ApplyFinish(e, w, job).store.jobs[id] == e.store.jobs[id]
  {}

  lemma ClaimKeepsOrphan(e: Exec, w: string, x: string, now: int, id: string)
    requires Identified(e.store) && Claimable(e.store, x, now) && Orphan(e, id)
    ensures Orphan(ApplyClaim(e, w, x, now), id) && ApplyClaim(e, w, x, now).store.jobs[id] == e.store.jobs[id]
  {}

  lemma WorkKeepsOrphan(e: Exec, k: Work, id: string)
    requires WorkersOk(e) && Identified(e.store) && WorkEnabled(e, k) && Orphan(e, id)
    ensures Orphan(ApplyWork(e, k), id) && ApplyWork(e, k).store.jobs[id] == e.store.jobs[id]
  {
    if k.Claim? {
      ClaimKeepsOrphan(e, k.worker, k.id, k.now, id);
    } else if k.Finish? {
      var record := Outgoing(e.workers[k.worker], k.now);
      assert record.id == e.workers[k.worker].job.id by { OutgoingShape(e.workers[k.worker], k.now); }
      FinishKeepsOrphan(e, k.worker, record, id);
    } else if !k.SelfSave? {
      MiddleIsLocal(e, k);
      MiddleKeepsOrphan(e, ApplyWork(e, k), k.worker, id);
    }
  }

  lemma BootKeepsOrphan(e: Exec, b: Boot, id: string)
    requires BootOk(e) && BootEnabled(e, b) && Orphan(e, id) && !ColonFree(id)
    ensures Orphan(ApplyBoot(e, b), id) && ApplyBoot(e, b).store.jobs[id] == e.store.jobs[id]
  {
    if b.BootRecover? {
      assert e.phase.todo[0] in e.phase.todo;
      BootRecoverShape(e);
    }
  }

  lemma StepKeepsOrphan(s: Sys, a: Action, id: string)
    requires Reachable(s) && Enabled(s, a) && Orphan(s.exec, id)
    requires !ColonFree(id) || (s.exec.phase.Up? && Steady(a))
    ensures Orphan(Apply(s, a).exec, id)
    ensures Apply(s, a).exec.store.jobs[id] == s.exec.store.jobs[id]
  {
    match a
    case ByIngest(i) => DrainNeverResets(s, a, id);
    case ByBoot(b) =>
      assert BootOk(s.exec) by { ReachableInv(s); }
      BootKeepsOrphan(s.exec, b, id);
    case ByWorker(k) =>
      assert WorkersOk(s.exec) && Identified(s.exec.store) by { ReachableInv(s); }
      WorkKeepsOrphan(s.exec, k, id);
    case _ =>
  }

  /** The other side of recovery: a job whose id holds a colon, left running without an owner,
      is never recovered, claimed or finished in any continuation. */
  lemma {:induction false} ColonJobStuckForever(s: Sys, run: seq<Action>, id: string)
    requires Reachable(s) && ValidRun(s, run) && Orphan(s.exec, id) && !ColonFree(id)
    ensures id in After(s, run).exec.store.jobs
    ensures After(s, run).exec.store.jobs[id] == s.exec.store.jobs[id]
    decreases |run|
  {
    if run != [] {
      StepKeepsOrphan(s, run[0], id);
      ReachableStep(s, run[0]);
      ColonJobStuckForever(Apply(s, run[0]), run[1..], id);
    }
  }

  /** Not a crash. */
  predicate Steady(a: Action) {
    !a.Crash?
  }

  predicate AllSteady(run: seq<Action>) {
    forall i :: 0 <= i < |run| ==> Steady(run[i])
  }

  /** Whatever its id, a job left running without an owner keeps its record until the process
      goes down. */
  lemma {:induction false} StrandedUntilCrash(s: Sys, run: seq<Action>, id: string)
    requires Reachable(s) && s.exec.phase.Up? && ValidRun(s, run) && AllSteady(run) && Orphan(s.exec, id)
    ensures Orphan(After(s, run).exec, id) && After(s, run).exec.store.jobs[id] == s.exec.store.jobs[id]
    decreases |run|
  {
    if run != [] {
      assert Steady(run[0]);
      StepKeepsOrphan(s, run[0], id);
      SteadyStaysUp(s, run[0]);
      ReachableStep(s, run[0]);
      StrandedUntilCrash(Apply(s, run[0]), run[1..], id);
    }
  }

  /** The run of an attempt whose handler returns an error of its own. */
  function Refusal(w: string, cp: Option<Checkpoint>, cause: string, signals: Signals): Action {
    ByWorker(Handle(w, false, cp, cause, signals, false))
  }

  /** Once a handler has returned an error, the guard alone decides: either the worker can only
      leave the job running, or it can only go on to fail or requeue it. */
  lemma GuardDecides(s: Sys, w: string, cp: Option<Checkpoint>, cause: string, signals: Signals)
    requires Reachable(s) && w in s.exec.workers && s.exec.workers[w].stage.Claimed?
    requires s.exec.workers[w].job.spec.kind in s.exec.handlers
    ensures Enabled(s, Refusal(w, cp, cause, signals))
    ensures var t, expired := Apply(s, Refusal(w, cp, cause, signals)),
                              s.exec.workers[w].job.spec.timeout > 0 && signals.attemptDone;
            && (WorkEnabled(t.exec, Leave(w)) <==> signals.runDone || (signals.cancellation && !expired))
            && forall saved :: WorkEnabled(t.exec, Save(w, saved)) <==>
                                 !signals.runDone && (!signals.cancellation || expired)
  {}

  /** A failed attempt as it ends: queued again after the documented delay, or failed. */
  ghost predicate FailureEnds(j: Job, r: Job, cause: string, now: int) {
    && r.attempt == j.attempt && r.spec == j.spec && r.lastError == cause
    && if j.attempt < (if j.spec.maxAttempts <= 0 then 1 else j.spec.maxAttempts)
       then r.state == Queued && r.nextAttemptAt == At(now + DocumentedDelay(j.spec, j.attempt))
       else r.state == Failed && r.completedAt == At(now)
  }

  /** The calls of an attempt after its handler's error. */
  function FailureRun(w: string, cp: Option<Checkpoint>, cause: string, signals: Signals, saved: bool, retry: bool,
                      found: bool, now: int): seq<Action> {
    [Refusal(w, cp, cause, signals), ByWorker(Save(w, saved))] +
    (if retry then [ByWorker(Token(w, found))] else []) + [ByWorker(Finish(w, now))]
  }

  lemma SaveStep(s: Sys, w: string, saved: bool)
    requires WorkEnabled(s.exec, Save(w, saved)) && !s.exec.workers[w].stage.ok
    ensures var a, t := s.exec.workers[w], Apply(s, ByWorker(Save(w, saved))).exec;
            && t.workers ==
               s.exec.workers[w := Attempt(a.job, Failing(a.job.attempt < MaxAttempts(a.job), a.stage.cause))]
            && t.store.jobs == s.exec.store.jobs && t.phase == s.exec.phase
  {}

  /** An attempt that ran into its own timeout is a failure like any other: it can be neither
      left running nor kept from its end, which is a retry while attempts remain. */
  lemma TimeoutIsRetried(s: Sys, w: string, cp: Option<Checkpoint>, cause: string, signals: Signals, saved: bool,
                         now: int) returns (end: Sys)
    requires Reachable(s) && w in s.exec.workers && s.exec.workers[w].stage.Claimed?
    requires s.exec.workers[w].job.spec.kind in s.exec.handlers && s.exec.workers[w].job.createdAt <= now
    requires s.exec.workers[w].job.spec.timeout > 0 && signals.attemptDone && !signals.runDone
    ensures !WorkEnabled(Apply(s, Refusal(w, cp, cause, signals)).exec, Leave(w))
    ensures var j := s.exec.workers[w].job; var retry := j.attempt < MaxAttempts(j);
            var run := FailureRun(w, cp, cause, signals, saved, retry, false, now);
            && ValidRun(s, run) && end == After(s, run)
            && j.id in end.exec.store.jobs && FailureEnds(j, end.exec.store.jobs[j.id], cause, now)
  {
    var a := s.exec.workers[w];
    var start := [Refusal(w, cp, cause, signals), ByWorker(Save(w, saved))];
    var s2 := FailureStarts(s, w, cp, cause, signals, saved);
    if a.job.attempt < MaxAttempts(a.job) {
      var third := ByWorker(Token(w, false));
      ReachableStep(s2, third);
      RunAppend(s, start, third);
      end := FailureFinishes(Apply(s2, third), w, cause, now);
      RunAppend(s, start + [third], ByWorker(Finish(w, now)));
    } else {
      end := FailureFinishes(s2, w, cause, now);
      RunAppend(s, start, ByWorker(Finish(w, now)));
      assert start + [] == start;
    }
  }

  lemma FailureStarts(s: Sys, w: string, cp: Option<Checkpoint>, cause: string, signals: Signals, saved: bool)
    returns (t: Sys)
    requires Reachable(s) && w in s.exec.workers && s.exec.workers[w].stage.Claimed?
    requires s.exec.workers[w].job.spec.kind in s.exec.handlers
    requires s.exec.workers[w].job.spec.timeout > 0 && signals.attemptDone && !signals.runDone
    ensures !WorkEnabled(Apply(s, Refusal(w, cp, cause, signals)).exec, Leave(w))
    ensures var run := [Refusal(w, cp, cause, signals), ByWorker(Save(w, saved))];
            Reachable(t) && ValidRun(s, run) && t == After(s, run)
    ensures var a := s.exec.workers[w];
            && t.exec.workers == s.exec.workers[w := Attempt(a.job, Failing(a.job.attempt < MaxAttempts(a.job), cause))]
            && t.exec.store.jobs == s.exec.store.jobs && t.exec.phase == s.exec.phase
  {
    GuardDecides(s, w, cp, cause, signals);
    var first, second := Refusal(w, cp, cause, signals), ByWorker(Save(w, saved));
    ReachableStep(s, first);
    var s1 := Apply(s, first);
    ReachableStep(s1, second);
    SaveStep(s1, w, saved);
    RunAppend(s, [], first);
    RunAppend(s, [first], second);
    assert [] + [first] == [first] && [first] + [second] == [first, second];
    t := Apply(s1, second);
  }

  lemma FailureFinishes(s: Sys, w: string, cause: string, now: int) returns (end: Sys)
    requires Reachable(s) && w in s.exec.workers && s.exec.workers[w].job.createdAt <= now
    requires var a := s.exec.workers[w];
             a.stage == if a.job.attempt < MaxAttempts(a.job) then Requeueing(cause) else Failing(false, cause)
    ensures Enabled(s, ByWorker(Finish(w, now))) && end == Apply(s, ByWorker(Finish(w, now)))
    ensures var j := s.exec.workers[w].job;
            j.id in end.exec.store.jobs && FailureEnds(j, end.exec.store.jobs[j.id], cause, now)
  {
    var a := s.exec.workers[w];
    SingleOwner(s, w);
    assert a.job.spec.Valid() && (Outgoing(a, now).Valid() <==> a.job.createdAt <= now) by {
      ReachableInv(s);
      FinishIsValid(s.exec, w, now);
    }
    BackoffOfValidSpec(a.job.spec, a.job.attempt);
    end := Apply(s, ByWorker(Finish(w, now)));
    FinishWrites(s.exec, w, now);
  }

  lemma FinishWrites(e: Exec, w: string, now: int)
    requires WorkEnabled(e, Finish(w, now))
    ensures var r := Outgoing(e.workers[w], now);
            r.id == e.workers[w].job.id && ApplyWork(e, Finish(w, now)).store.jobs == e.store.jobs[r.id := r]
  {
    OutgoingShape(e.workers[w], now);
  }

  /** With the run over, an error never changes the record. */
  lemma RunOverLeaves(s: Sys, w: string, cp: Option<Checkpoint>, cause: string, signals: Signals)
    requires Reachable(s) && w in s.exec.workers && s.exec.workers[w].stage.Claimed?
    requires s.exec.workers[w].job.spec.kind in s.exec.handlers && signals.runDone
    ensures var t := Apply(s, Refusal(w, cp, cause, signals)).exec;
            forall k :: WorkEnabled(t, k) && !k.Claim? && !k.SelfSave? && k.worker == w ==>
              k == Leave(w) && ApplyWork(t, k).store == s.exec.store
  {}

  /** Hence a handler that returns a cancellation of its own, no context being done and nothing
      crashing, leaves its job running with nobody to work on it. */
  lemma CancellationStrands(s: Sys, w: string, cp: Option<Checkpoint>, cause: string)
    requires Reachable(s) && w in s.exec.workers && s.exec.workers[w].stage.Claimed?
    requires s.exec.workers[w].job.spec.kind in s.exec.handlers
    ensures var run := [Refusal(w, cp, cause, Signals(true, false, false)), ByWorker(Leave(w))];
            && ValidRun(s, run) && AllSteady(run) && Orphan(After(s, run).exec, s.exec.workers[w].job.id)
            && After(s, run).exec.phase.Up?
  {
    var first, second := Refusal(w, cp, cause, Signals(true, false, false)), ByWorker(Leave(w));
    GuardDecides(s, w, cp, cause, Signals(true, false, false));
    var t := Apply(s, first);
    ReachableStep(s, first);
    LeavingStrands(t, w, Leave(w));
    RunAppend(t, [], second);
    assert [] + [second] == [second] && [first, second][1..] == [second];
  }

  /** So does every attempt whose last update fails. */
  lemma LeavingStrands(s: Sys, w: string, k: Work)
    requires Reachable(s) && WorkEnabled(s.exec, k) && GivesUp(k) && k.worker == w
    ensures Orphan(ApplyWork(s.exec, k), s.exec.workers[w].job.id) && ApplyWork(s.exec, k).phase.Up?
    ensures ApplyWork(s.exec, k).store == s.exec.store
  {
    SingleOwner(s, w);
    assert WorkersOk(s.exec) by { ReachableInv(s); }
    WorkKeepsPhase(s.exec, k);
  }

  lemma DownStays(s: Sys, a: Action)
    requires Reachable(s) && Enabled(s, a) && s.exec.phase.Down? && !KeysReadable(s.exec.store)
    ensures Apply(s, a).exec.store == s.exec.store && Apply(s, a).exec.phase.Down?
  {
    assert s.exec.workers == map[] by { ReachableInv(s); }
  }

  /** A running-index key that ends in a colon keeps the store from ever opening again. */
  lemma {:induction false} UnreadableKeyBlocksBoot(s: Sys, run: seq<Action>)
    requires Reachable(s) && ValidRun(s, run) && s.exec.phase.Down? && !KeysReadable(s.exec.store)
    ensures After(s, run).exec.phase.Down?
    decreases |run|
  {
    if run != [] {
      DownStays(s, run[0]);
      ReachableStep(s, run[0]);
      UnreadableKeyBlocksBoot(Apply(s, run[0]), run[1..]);
    }
  }

  /** Every running key was written for some job. */
  ghost predicate Formed(s: Store) {
    forall key :: key in s.running ==> KeyOfJob(s, key)
  }

  ghost predicate KeyOfJob(s: Store, key: string) {
    exists w, id :: w != "" && id in s.jobs && RunningKey(w, id) == key
  }

  lemma FormedFrame(s: Store, t: Store, w: string, id: string)
    requires Formed(s) && s.jobs.Keys <= t.jobs.Keys
    requires t.running <= s.running || (w != "" && id in t.jobs && t.running <= s.running + {RunningKey(w, id)})
    ensures Formed(t)
  {
    forall key | key in t.running ensures KeyOfJob(t, key) {
      if key in s.running {
        var v, x :| v != "" && x in s.jobs && RunningKey(v, x) == key;
        assert RunningKey(v, x) == key && x in t.jobs;
      } else {
        assert RunningKey(w, id) == key;
      }
    }
  }

  lemma WorkAddsKey(e: Exec, k: Work)
    requires WorkEnabled(e, k)
    ensures var t := ApplyWork(e, k).store;
            && e.store.jobs.Keys <= t.jobs.Keys
            && t.running == (if k.Claim? then e.store.running + {RunningKey(k.worker, k.id)} else e.store.running)
  {}

  lemma StepKeepsFormed(s: Sys, a: Action)
    requires Reachable(s) && Enabled(s, a) && Formed(s.exec.store)
    ensures Formed(Apply(s, a).exec.store)
  {
    var t := Apply(s, a).exec.store;
    match a
    case ByWorker(k) =>
      WorkAddsKey(s.exec, k);
      if k.Claim? { FormedFrame(s.exec.store, t, k.worker, k.id); } else { FormedFrame(s.exec.store, t, "", ""); }
    case ByBoot(b) =>
      if b.BootRecover? {
        var f := s.exec.phase.todo[0];
        RecoverOneFrame(s.exec.store, f.0, f.1, s.exec.phase.at);
      }
      FormedFrame(s.exec.store, t, "", "");
    case _ => FormedFrame(s.exec.store, t, "", "");
  }

  lemma {:induction false} RunKeepsFormed(s: Sys, run: seq<Action>)
    requires Reachable(s) && ValidRun(s, run) && Formed(s.exec.store)
    ensures Formed(After(s, run).exec.store)
    decreases |run|
  {
    if run != [] {
      StepKeepsFormed(s, run[0]);
      ReachableStep(s, run[0]);
      RunKeepsFormed(Apply(s, run[0]), run[1..]);
    }
  }

  predicate EndsInColon(id: string) {
    id != "" && id[|id| - 1] == ':'
  }

  /** Some running key was written for a job whose id ends in a colon. */
  ghost predicate Poisoned(s: Store) {
    exists w, id :: w != "" && id in s.jobs && EndsInColon(id) && RunningKey(w, id) in s.running
  }

  /** In every reachable state the store can be opened exactly if it holds no such key. */
  lemma ReadableExactly(s: Sys)
    requires Reachable(s)
    ensures KeysReadable(s.exec.store) <==> !Poisoned(s.exec.store)
  {
    var handlers, run :| ReachedBy(handlers, run, s);
    InitReachable(handlers);
    RunKeepsFormed(Init(handlers), run);
    var store := s.exec.store;
    assert Identified(store) by { ReachableInv(s); }
    if Poisoned(store) {
      var w, id :| w != "" && id in store.jobs && EndsInColon(id) && RunningKey(w, id) in store.running;
      UnreadableExactly(w, id);
    } else {
      forall key | key in store.running ensures ParseRunningKey(key).Some? {
        assert KeyOfJob(store, key);
        var w, id :| w != "" && id in store.jobs && RunningKey(w, id) == key;
        UnreadableExactly(w, id);
      }
    }
  }

  /** A process that is down can start to boot exactly if the store holds no such key. */
  lemma OpensExactly(s: Sys)
    requires Reachable(s) && s.exec.phase.Down?
    ensures (exists found, now :: Enabled(s, ByBoot(BootScan(found, now)))) <==> !Poisoned(s.exec.store)
  {
    ReadableExactly(s);
    if !Poisoned(s.exec.store) {
      var found := ScanExists(s.exec.store, s.exec.store.running);
      assert ScanComplete(s.exec.store, found);
      assert Enabled(s, ByBoot(BootScan(found, 0)));
    }
  }

  // ----- progress without crashes -----

  function StageRank(stage: Stage): nat {
    match stage
    case Claimed => 5
    case Handled(_, _, _, _) => 4
    case Failing(retry, _) => if retry then 3 else 1
    case Requeueing(_) => 2
    case Completing => 1
  }

  /** Work left for one job: moves weighted above the calls of one attempt. */
  function RankWith(j: Job, stage: Option<Stage>): int {
    match j.state
    case Queued => 14 * (MaxAttempts(j) - j.attempt)
    case Running => 14 * (MaxAttempts(j) - j.attempt) + 7 + (if stage.Some? then StageRank(stage.value) else 0)
    case _ => 0
  }

  /** The action belongs to the given job. */
  ghost predicate Concerns(e: Exec, k: Work, id: string) {
    match k
    case Claim(_, x, _) => x == id
    case SelfSave(_) => false
    case _ => k.worker in e.workers && e.workers[k.worker].job.id == id
  }

  ghost predicate OwnedBy(e: Exec, w: string, id: string) {
    w in e.workers && e.workers[w].job.id == id
  }

  ghost function StageOf(e: Exec, id: string): Option<Stage> {
    if exists w :: OwnedBy(e, w, id) then
      var w :| OwnedBy(e, w, id);
      Some(e.workers[w].stage)
    else None
  }

  ghost function Rank(e: Exec, id: string): int
    requires id in e.store.jobs
  {
    RankWith(e.store.jobs[id], StageOf(e, id))
  }

  lemma StageOfOwner(e: Exec, w: string)
    requires OneOwner(e.workers) && w in e.workers
    ensures StageOf(e, e.workers[w].job.id) == Some(e.workers[w].stage)
  {
    assert OwnedBy(e, w, e.workers[w].job.id);
  }

  lemma AdvanceLowersStage(e: Exec, k: Work)
    requires Middle(k) && WorkEnabled(e, k)
    ensures StageRank(Advanced(e, k).stage) < StageRank(e.workers[k.worker].stage)
  {}

  ghost predicate Lower(e: Exec, t: Exec, id: string) {
    id in e.store.jobs && id in t.store.jobs && 0 <= Rank(t, id) < Rank(e, id)
  }

  lemma ClaimLowersRank(e: Exec, w: string, id: string, now: int)
    requires Identified(e.store) && WorkEnabled(e, Claim(w, id, now)) && JobOk(e, id)
    requires OneOwner(ApplyClaim(e, w, id, now).workers)
    ensures Lower(e, ApplyClaim(e, w, id, now), id)
  {
    var t := ApplyClaim(e, w, id, now);
    StageOfOwner(t, w);
  }

  lemma FinishLowersRank(e: Exec, w: string, now: int)
    requires WorkersOk(e) && WorkEnabled(e, Finish(w, now)) && JobOk(e, e.workers[w].job.id)
    ensures Lower(e, ApplyWork(e, Finish(w, now)), e.workers[w].job.id)
  {
    assert WorkerOk(e, w);
    OutgoingShape(e.workers[w], now);
    StageOfOwner(e, w);
  }

  lemma ContinuingLowersRank(e: Exec, t: Exec, v: string, b: Attempt)
    requires WorkersOk(e) && v in e.workers && JobOk(e, e.workers[v].job.id)
    requires t.workers == e.workers[v := b] && t.store.jobs == e.store.jobs
    requires b.job.id == e.workers[v].job.id && StageRank(b.stage) < StageRank(e.workers[v].stage)
    ensures Lower(e, t, b.job.id)
  {
    assert WorkerOk(e, v);
    OwnersFrame(e.workers, t.workers);
    StageOfOwner(e, v);
    StageOfOwner(t, v);
  }

  lemma AdvanceLowersRank(e: Exec, k: Work)
    requires WorkersOk(e) && Middle(k) && WorkEnabled(e, k) && JobOk(e, e.workers[k.worker].job.id)
    ensures Lower(e, ApplyWork(e, k), e.workers[k.worker].job.id)
  {
    assert Advanced(e, k).job.id == e.workers[k.worker].job.id by {
      assert WorkerOk(e, k.worker);
      AdvancedOk(e, k);
    }
    MiddleShape(e, k);
    AdvanceLowersStage(e, k);
    ContinuingLowersRank(e, ApplyWork(e, k), k.worker, Advanced(e, k));
  }

  lemma LeavingLowersRank(e: Exec, k: Work)
    requires WorkersOk(e) && WorkEnabled(e, k) && GivesUp(k) && JobOk(e, e.workers[k.worker].job.id)
    ensures Lower(e, ApplyWork(e, k), e.workers[k.worker].job.id)
  {
    assert WorkerOk(e, k.worker);
    StageOfOwner(e, k.worker);
    assert forall w :: !OwnedBy(ApplyWork(e, k), w, e.workers[k.worker].job.id);
  }

  /** Every action of a worker on a job, giving it up included, lowers the job's rank. */
  lemma WorkLowersRank(s: Sys, k: Work, id: string)
    requires Reachable(s) && WorkEnabled(s.exec, k) && id in s.exec.store.jobs && Concerns(s.exec, k, id)
    ensures Lower(s.exec, ApplyWork(s.exec, k), id)
  {
    var e := s.exec;
    assert JobsOk(e) && WorkersOk(e) && Identified(e.store) by { ReachableInv(s); }
    assert JobOk(e, id);
    match k
    case Claim(w, _, now) =>
      ClaimKeepsOwners(e, w, id, now);
      ClaimLowersRank(e, w, id, now);
    case Finish(w, now) => FinishLowersRank(e, w, now);
    case Leave(w) => LeavingLowersRank(e, k);
    case UpdateFails(w) => LeavingLowersRank(e, k);
    case _ => AdvanceLowersRank(e, k);
  }

  ghost predicate Touches(s: Sys, a: Action, id: string) {
    a.ByWorker? && Concerns(s.exec, a.work, id)
  }

  /** The owner of the job, if any, and its stage are the same on both sides. */
  ghost predicate SameOwner(e: Exec, t: Exec, id: string) {
    forall w :: (OwnedBy(e, w, id) <==> OwnedBy(t, w, id)) &&
                (OwnedBy(e, w, id) ==> t.workers[w].stage == e.workers[w].stage)
  }

  lemma SameOwnerSameStage(e: Exec, t: Exec, id: string)
    requires OneOwner(e.workers) && OneOwner(t.workers) && SameOwner(e, t, id)
    ensures StageOf(e, id) == StageOf(t, id)
  {
    if w :| OwnedBy(e, w, id) {
      StageOfOwner(e, w);
      StageOfOwner(t, w);
    }
  }

  lemma OtherContinues(e: Exec, t: Exec, v: string, b: Attempt, id: string)
    requires v in e.workers && t.workers == e.workers[v := b]
    requires b.job.id == e.workers[v].job.id != id
    ensures SameOwner(e, t, id)
  {}

  lemma OtherEnds(e: Exec, t: Exec, v: string, id: string)
    requires v in e.workers && t.workers == e.workers - {v} && e.workers[v].job.id != id
    ensures SameOwner(e, t, id)
  {}

  lemma OtherClaim(e: Exec, w: string, x: string, now: int, id: string)
    requires Identified(e.store) && w !in e.workers && Claimable(e.store, x, now) && id in e.store.jobs && x != id
    ensures SameOwner(e, ApplyClaim(e, w, x, now), id)
    ensures id in ApplyClaim(e, w, x, now).store.jobs && ApplyClaim(e, w, x, now).store.jobs[id] == e.store.jobs[id]
  {}

  lemma OtherFinish(e: Exec, w: string, now: int, id: string)
    requires WorkEnabled(e, Finish(w, now)) && id in e.store.jobs && e.workers[w].job.id != id
    ensures SameOwner(e, ApplyWork(e, Finish(w, now)), id)
    ensures ApplyWork(e, Finish(w, now)).store.jobs[id] == e.store.jobs[id]
  {
    OutgoingShape(e.workers[w], now);
    OtherEnds(e, ApplyWork(e, Finish(w, now)), w, id);
  }

  lemma OtherMiddle(e: Exec, k: Work, id: string)
    requires WorkersOk(e) && Middle(k) && WorkEnabled(e, k) && id in e.store.jobs
    requires e.workers[k.worker].job.id != id
    ensures SameOwner(e, ApplyWork(e, k), id) && ApplyWork(e, k).store.jobs == e.store.jobs
  {
    MiddleShape(e, k);
    assert Advanced(e, k).job.id == e.workers[k.worker].job.id by {
      assert WorkerOk(e, k.worker);
      AdvancedOk(e, k);
    }
    OtherContinues(e, ApplyWork(e, k), k.worker, Advanced(e, k), id);
  }

  lemma OtherWorkKeepsRank(e: Exec, k: Work, id: string)
    requires WorkersOk(e) && Identified(e.store) && WorkEnabled(e, k) && id in e.store.jobs
    requires !Concerns(e, k, id)
    ensures SameOwner(e, ApplyWork(e, k), id)
    ensures id in ApplyWork(e, k).store.jobs && ApplyWork(e, k).store.jobs[id] == e.store.jobs[id]
  {
    if k.Claim? {
      OtherClaim(e, k.worker, k.id, k.now, id);
    } else if k.Finish? {
      OtherFinish(e, k.worker, k.now, id);
    } else if GivesUp(k) {
      GivingUpShape(e, k);
      OtherEnds(e, ApplyWork(e, k), k.worker, id);
    } else if Middle(k) {
      OtherMiddle(e, k, id);
    }
  }

  lemma OtherKeepsRank(s: Sys, a: Action, id: string)
    requires Reachable(s) && s.exec.phase.Up? && Enabled(s, a) && Steady(a)
    requires id in s.exec.store.jobs && !Touches(s, a, id)
    ensures id in Apply(s, a).exec.store.jobs && Rank(Apply(s, a).exec, id) == Rank(s.exec, id)
  {
    ReachableStep(s, a);
    OtherKeepsOwner(s, a, id);
    assert OneOwner(s.exec.workers) by { ReachableInv(s); }
    assert OneOwner(Apply(s, a).exec.workers) by { ReachableInv(Apply(s, a)); }
    SameOwnerSameStage(s.exec, Apply(s, a).exec, id);
  }

  lemma OtherKeepsOwner(s: Sys, a: Action, id: string)
    requires Reachable(s) && s.exec.phase.Up? && Enabled(s, a) && Steady(a)
    requires id in s.exec.store.jobs && !Touches(s, a, id)
    ensures SameOwner(s.exec, Apply(s, a).exec, id)
    ensures id in Apply(s, a).exec.store.jobs && Apply(s, a).exec.store.jobs[id] == s.exec.store.jobs[id]
  {
    if a.ByWorker? {
      assert WorkersOk(s.exec) && Identified(s.exec.store) by { ReachableInv(s); }
      OtherWorkKeepsRank(s.exec, a.work, id);
    } else {
      if a.ByIngest? { DrainNeverResets(s, a, id); }
      assert Apply(s, a).exec.workers == s.exec.workers;
    }
  }

  /** Calls workers make for one job along a run. */
  ghost function Calls(s: Sys, run: seq<Action>, id: string): nat
    requires ValidRun(s, run)
    decreases |run|
  {
    if run == [] then 0
    else (if Touches(s, run[0], id) then 1 else 0) + Calls(Apply(s, run[0]), run[1..], id)
  }

  lemma SteadyStaysUp(s: Sys, a: Action)
    requires Reachable(s) && s.exec.phase.Up? && Enabled(s, a) && Steady(a)
    ensures Apply(s, a).exec.phase.Up?
  {
    if a.ByWorker? {
      assert WorkersOk(s.exec) by { ReachableInv(s); }
      WorkKeepsPhase(s.exec, a.work);
    }
  }

  lemma RankNonNegative(s: Sys, id: string)
    requires Reachable(s) && id in s.exec.store.jobs
    ensures 0 <= Rank(s.exec, id)
  {
    assert JobOk(s.exec, id) by { ReachableInv(s); }
  }

  /** In a run without crashes the workers make at most Rank calls for a job. */
  lemma {:induction false} CallsBounded(s: Sys, run: seq<Action>, id: string)
    requires Reachable(s) && s.exec.phase.Up? && ValidRun(s, run) && AllSteady(run) && id in s.exec.store.jobs
    ensures Calls(s, run, id) <= Rank(s.exec, id)
    decreases |run|
  {
    if run == [] {
      RankNonNegative(s, id);
    } else {
      var a := run[0];
      assert Steady(a);
      if Touches(s, a, id) { WorkLowersRank(s, a.work, id); } else { OtherKeepsRank(s, a, id); }
      SteadyStaysUp(s, a);
      ReachableStep(s, a);
      CallsBounded(Apply(s, a), run[1..], id);
    }
  }

  lemma OutgoingValid(a: Attempt, now: int)
    requires Ending(a.stage) && a.job.spec.Valid() && !Blank(a.job.id) && 0 <= a.job.attempt
    requires a.job.completedAt == Zero
    ensures Outgoing(a, now).Valid() <==> a.job.createdAt <= now
  {}

  lemma FinishIsValid(e: Exec, w: string, now: int)
    requires Named(e.store) && SpecsValid(e.store) && w in e.workers && WorkerOk(e, w) && JobOk(e, e.workers[w].job.id)
    requires Ending(e.workers[w].stage)
    ensures Outgoing(e.workers[w], now).Valid() <==> e.workers[w].job.createdAt <= now
  {
    var a := e.workers[w];
    assert a.job.id[0] == 'j';
    OutgoingValid(a, now);
  }

  /** And there is always such an action: the owner of a running job can make its next call. */
  lemma OwnerCanProceed(s: Sys, w: string) returns (k: Work)
    requires Reachable(s) && w in s.exec.workers
    ensures WorkEnabled(s.exec, k) && Concerns(s.exec, k, s.exec.workers[w].job.id)
    ensures GivesUp(k) <==> s.exec.workers[w].stage.Handled? && s.exec.workers[w].stage.left
  {
    var a := s.exec.workers[w];
    if a.stage.Claimed? {
      k := if a.job.spec.kind in s.exec.handlers then Handle(w, true, None, "", Signals(false, false, false), false)
           else Unknown(w);
    } else if a.stage.Handled? {
      k := if a.stage.left then Leave(w) else Save(w, false);
    } else if a.stage.Failing? && a.stage.retry {
      k := Token(w, false);
    } else {
      SingleOwner(s, w);
      assert Outgoing(a, a.job.createdAt).Valid() by {
        ReachableInv(s);
        FinishIsValid(s.exec, w, a.job.createdAt);
      }
      k := Finish(w, a.job.createdAt);
    }
  }

  /** A queued job can be claimed by any idle worker once its time has come. */
  lemma QueuedCanBeClaimed(s: Sys, id: string, w: string, now: int)
    requires Reachable(s) && s.exec.phase.Up? && w != "" && w !in s.exec.workers
    requires id in s.exec.store.jobs && s.exec.store.jobs[id].state == Queued && Due(s.exec.store.jobs[id], now)
    ensures WorkEnabled(s.exec, Claim(w, id, now))
    ensures Live(s.exec.store, ReadyKeyOf(s.exec.store.jobs[id]), now)
  {
    ReachableInv(s);
  }

  /** A job that is running has somebody working on it. */
  ghost predicate InHand(e: Exec, id: string) {
    id in e.store.jobs && (e.store.jobs[id].state == Running ==> exists w :: OwnedBy(e, w, id))
  }

  /** Some worker has a call to make for the job. */
  ghost predicate CanProceed(s: Sys, id: string) {
    exists k :: WorkEnabled(s.exec, k) && Concerns(s.exec, k, id)
  }

  /** The action gives up an attempt of this job. */
  ghost predicate GivesUpOn(s: Sys, a: Action, id: string) {
    Touches(s, a, id) && GivesUp(a.work)
  }

  /** Somewhere along the run an attempt of this job met the interruption guard or had its last
      update fail. */
  ghost predicate GaveUp(s: Sys, run: seq<Action>, id: string)
    requires ValidRun(s, run)
    decreases |run|
  {
    run != [] && (GivesUpOn(s, run[0], id) || GaveUp(Apply(s, run[0]), run[1..], id))
  }

  lemma MiddleKeepsOwner(e: Exec, k: Work, id: string)
    requires WorkersOk(e) && Middle(k) && WorkEnabled(e, k) && Concerns(e, k, id)
    ensures OwnedBy(ApplyWork(e, k), k.worker, id)
  {
    MiddleShape(e, k);
    assert WorkerOk(e, k.worker);
    AdvancedOk(e, k);
  }

  lemma WorkKeepsInHand(e: Exec, k: Work, id: string)
    requires WorkersOk(e) && Identified(e.store) && WorkEnabled(e, k)
    requires id in e.store.jobs && Concerns(e, k, id) && !GivesUp(k)
    ensures InHand(ApplyWork(e, k), id)
  {
    WorkAllowed(e, k, id);
    match k
    case Claim(w, _, now) => assert OwnedBy(ApplyWork(e, k), w, id);
    case Finish(w, now) => FinishLeavesRunning(e, w, now);
    case _ => MiddleKeepsOwner(e, k, id);
  }

  lemma FinishLeavesRunning(e: Exec, w: string, now: int)
    requires WorkersOk(e) && WorkEnabled(e, Finish(w, now))
    ensures ApplyWork(e, Finish(w, now)).store.jobs[e.workers[w].job.id].state != Running
  {
    OutgoingShape(e.workers[w], now);
  }

  lemma StepKeepsInHand(s: Sys, a: Action, id: string)
    requires Reachable(s) && s.exec.phase.Up? && Enabled(s, a) && Steady(a) && InHand(s.exec, id)
    requires !GivesUpOn(s, a, id)
    ensures InHand(Apply(s, a).exec, id)
  {
    var t := Apply(s, a);
    assert WorkersOk(s.exec) && Identified(s.exec.store) by { ReachableInv(s); }
    if Touches(s, a, id) {
      WorkKeepsInHand(s.exec, a.work, id);
    } else {
      OtherKeepsOwner(s, a, id);
      if w :| OwnedBy(s.exec, w, id) { assert OwnedBy(t.exec, w, id); }
    }
  }

  lemma UnfinishedCanProceed(s: Sys, id: string, idle: string)
    requires Reachable(s) && s.exec.phase.Up? && InHand(s.exec, id) && !s.exec.store.jobs[id].state.Terminal()
    requires idle != "" && idle !in s.exec.workers
    ensures CanProceed(s, id)
  {
    var j := s.exec.store.jobs[id];
    if j.state == Running {
      var w :| OwnedBy(s.exec, w, id);
      var k := OwnerCanProceed(s, w);
    } else {
      var now := if j.nextAttemptAt.Zero? then 0 else j.nextAttemptAt.ns;
      QueuedCanBeClaimed(s, id, idle, now);
      assert Concerns(s.exec, Claim(idle, id, now), id);
    }
  }

  /** Every run without crashes, whatever handlers answer and whatever happens to other jobs:
      if at its end nobody has a call to make for the job (some worker being idle), the job is
      terminal exactly if no attempt of it was given up on the way, that is, met the
      interruption guard or had its last update fail. */
  lemma {:induction false} EndsTerminalExactly(s: Sys, run: seq<Action>, id: string, idle: string)
    requires Reachable(s) && s.exec.phase.Up? && ValidRun(s, run) && AllSteady(run) && InHand(s.exec, id)
    requires !CanProceed(After(s, run), id) && idle != "" && idle !in After(s, run).exec.workers
    ensures id in After(s, run).exec.store.jobs
    ensures After(s, run).exec.store.jobs[id].state.Terminal() <==> !GaveUp(s, run, id)
    decreases |run|
  {
    if run == [] {
      if !s.exec.store.jobs[id].state.Terminal() { UnfinishedCanProceed(s, id, idle); }
    } else {
      var a := run[0];
      assert Steady(a);
      ReachableStep(s, a);
      SteadyStaysUp(s, a);
      if GivesUpOn(s, a, id) {
        LeavingStrands(s, a.work.worker, a.work);
        StrandedUntilCrash(Apply(s, a), run[1..], id);
      } else {
        StepKeepsInHand(s, a, id);
        EndsTerminalExactly(Apply(s, a), run[1..], id, idle);
      }
    }
  }

  // ----- what submitters get -----

  ghost predicate IdsMinted(d: Dirs) {
    forall c :: c in d.ids ==> MintedID(c)
  }

  lemma StepKeepsMinted(s: Sys, a: Action)
    requires Enabled(s, a) && IdsMinted(s.dirs)
    ensures IdsMinted(Apply(s, a).dirs)
  {
    if a.ByWatcher? { WatchFrame(s.dirs, a.watch); }
  }

  lemma {:induction false} RunKeepsMinted(s: Sys, run: seq<Action>)
    requires ValidRun(s, run) && IdsMinted(s.dirs)
    ensures IdsMinted(After(s, run).dirs)
    decreases |run|
  {
    if run != [] {
      StepKeepsMinted(s, run[0]);
      RunKeepsMinted(Apply(s, run[0]), run[1..]);
    }
  }

  /** In every reachable state every accepted id is a minted one, so its job id holds no colon. */
  lemma AcceptedIsColonFree(s: Sys, c: string)
    requires Reachable(s) && c in s.dirs.accepted
    ensures MintedID(c) && ColonFree(JobID(c))
  {
    var handlers, run :| ReachedBy(handlers, run, s);
    RunKeepsMinted(Init(handlers), run);
    assert s.dirs.accepted.Keys <= s.dirs.ids by { ReachableInv(s); }
    MintedIsColonFree(c);
    assert forall i :: 4 <= i < |JobID(c)| ==> JobID(c)[i] == c[i - 4];
  }

  /** The recovery theorem of Submit: whatever happened before, once a boot is done the job of an
      accepted submission is not running, and it is in hand whatever the handlers. */
  lemma AcceptedIsRecovered(s: Sys, c: string)
    requires Reachable(s) && s.exec.phase.Booting? && s.exec.phase.todo == []
    requires c in s.dirs.accepted && JobID(c) in s.exec.store.jobs
    ensures s.exec.store.jobs[JobID(c)].state != Running
    ensures forall handlers :: InHand(Apply(s, ByBoot(BootDone(handlers))).exec, JobID(c))
  {
    AcceptedIsColonFree(s, c);
    BootedIsInHand(s, JobID(c));
    BootLeavesNoneRunning(s, JobID(c));
  }

  /** Only a file another producer dropped can bring a colon into a job id. */
  lemma ColonIsForeign(s: Sys, id: string)
    requires Reachable(s) && id in s.exec.store.jobs && !ColonFree(id)
    ensures s.exec.store.jobs[id].spec.correlateID in s.dirs.foreign
  {
    var c := s.exec.store.jobs[id].spec.correlateID;
    assert id == JobID(c) && JobSourced(s.dirs, s.exec.store.jobs[id]) by { ReachableInv(s); }
    if c !in s.dirs.foreign { AcceptedIsColonFree(s, c); }
  }

  /** So as long as all submissions come through Submit, a process that is down can always boot. */
  lemma OpensWithoutForeign(s: Sys)
    requires Reachable(s) && s.exec.phase.Down? && s.dirs.foreign == {}
    ensures exists found, now :: Enabled(s, ByBoot(BootScan(found, now)))
  {
    if Poisoned(s.exec.store) {
      var w, id :| w != "" && id in s.exec.store.jobs && EndsInColon(id) && RunningKey(w, id) in s.exec.store.running;
      ColonIsForeign(s, id);
    }
    OpensExactly(s);
  }

  /** When a boot completes every job with a colon-free id is in hand. */
  lemma BootedIsInHand(s: Sys, id: string)
    requires Reachable(s) && s.exec.phase.Booting? && s.exec.phase.todo == []
    requires id in s.exec.store.jobs && ColonFree(id)
    ensures forall handlers :: InHand(Apply(s, ByBoot(BootDone(handlers))).exec, id)
  {
    BootLeavesNoneRunning(s, id);
  }

  // ----- single steps of the ingest loop -----

  lemma ReadStep(s: Sys, name: string)
    requires s.exec.phase.Up? && s.dirs.watcher == Idle && IsJobFile(name) && name in s.dirs.pending
    ensures Enabled(s, ByWatcher(ReadPending(name)))
    ensures Apply(s, ByWatcher(ReadPending(name))) == s.(dirs := s.dirs.(watcher := Read(name, s.dirs.pending[name])))
  {}

  lemma RenameStep(s: Sys, ok: bool)
    requires s.exec.phase.Up? && s.dirs.watcher.Read? && s.dirs.watcher.name in s.dirs.pending
    ensures Enabled(s, ByWatcher(Rename(ok)))
    ensures var d, name := s.dirs, s.dirs.watcher.name;
            Apply(s, ByWatcher(Rename(ok))) ==
            s.(dirs := if ok then d.(pending := d.pending - {name}, claimed := d.claimed[name := d.pending[name]],
                                     watcher := Holding(name, d.watcher.data))
                       else d.(watcher := Idle))
  {}

  // ----- witnesses -----

  lemma EmptyScan(s: Sys)
    requires s.exec.store == EMPTY && s.exec.phase.Down?
    ensures Enabled(s, ByBoot(BootScan([], 0)))
  {}

  lemma InitReachable(handlers: set<string>)
    ensures Reachable(Init(handlers))
  {
    assert ReachedBy(handlers, [], Init(handlers));
  }

  /** Neither a crash nor a handler returning into a shutdown. */
  predicate Calm(a: Action) {
    Steady(a) && !(a.ByWorker? && a.work.Handle? && a.work.signals.runDone)
  }

  /** Reachable without any crash or shutdown. */
  ghost predicate Undisturbed(s: Sys) {
    exists handlers, run :: ReachedBy(handlers, run, s) && forall i :: 0 <= i < |run| ==> Calm(run[i])
  }

  lemma UndisturbedStep(s: Sys, a: Action)
    requires Undisturbed(s) && Enabled(s, a) && Calm(a)
    ensures Undisturbed(Apply(s, a)) && Reachable(Apply(s, a))
  {
    var handlers, run :| ReachedBy(handlers, run, s) && forall i :: 0 <= i < |run| ==> Calm(run[i]);
    RunAppend(Init(handlers), run, a);
    assert ReachedBy(handlers, run + [a], Apply(s, a));
  }

  /** Submit's own conditions. */
  predicate Submittable(file: SpoolFile) {
    file.spec.Valid() && MintedID(file.correlateID) && file.spec.correlateID == file.correlateID
  }

  /** A running system with an empty store and just this file in pending/. */
  ghost predicate Spooled(s: Sys, file: SpoolFile, handlers: set<string>) {
    && Undisturbed(s) && s.exec == Exec(handlers, EMPTY, Up, map[], map[], map[]) && s.dirs.watcher == Idle
    && s.dirs.pending == map["x.json" := Json(file)] && s.dirs.claimed == map[]
  }

  lemma FirstBoot(before: Sys, handlers: set<string>) returns (s: Sys)
    requires Undisturbed(before) && before.exec.store == EMPTY && before.exec.phase.Down?
    ensures Undisturbed(s) && s == before.(exec := before.exec.(phase := Up, handlers := handlers))
  {
    EmptyScan(before);
    var scan := ByBoot(BootScan([], 0));
    UndisturbedStep(before, scan);
    s := Apply(before, scan);
    UndisturbedStep(s, ByBoot(BootDone(handlers)));
    s := Apply(s, ByBoot(BootDone(handlers)));
  }

  /** Submit reports success for every valid spec, also one whose payload encodes as `null`. */
  lemma SubmissionIsAccepted(file: SpoolFile, handlers: set<string>) returns (s: Sys)
    requires Submittable(file)
    ensures Spooled(s, file, handlers) && s.dirs.accepted == map[file.correlateID := Receipt("x.json", file)]
  {
    var name := "x.json";
    s := Init(handlers);
    assert ReachedBy(handlers, [], s);
    assert IsJobFile(name);
    var open := ByProducer(SubmitOpen(name, file, 0));
    UndisturbedStep(s, open);
    s := Apply(s, open);
    var write := ByProducer(SubmitWrite(name));
    UndisturbedStep(s, write);
    s := Apply(s, write);
    var rename := ByProducer(SubmitRename(name));
    UndisturbedStep(s, rename);
    s := Apply(s, rename);
    s := FirstBoot(s, handlers);
  }

  /** Another producer may drop any file. */
  lemma ForeignIsSpooled(file: SpoolFile, handlers: set<string>) returns (s: Sys)
    ensures Spooled(s, file, handlers) && s.dirs.accepted == map[]
  {
    s := Init(handlers);
    assert ReachedBy(handlers, [], s);
    var drop := ByProducer(Foreign("x.json", Json(file)));
    UndisturbedStep(s, drop);
    s := Apply(s, drop);
    s := FirstBoot(s, handlers);
  }

  lemma PendingIsClaimed(before: Sys, name: string) returns (s: Sys)
    requires Undisturbed(before) && before.exec.phase.Up? && before.dirs.watcher == Idle
    requires IsJobFile(name) && name in before.dirs.pending
    ensures Undisturbed(s)
    ensures var d := before.dirs;
            s == before.(dirs := d.(pending := d.pending - {name}, claimed := d.claimed[name := d.pending[name]],
                                    watcher := Holding(name, d.pending[name])))
  {
    ReadStep(before, name);
    UndisturbedStep(before, ByWatcher(ReadPending(name)));
    s := Apply(before, ByWatcher(ReadPending(name)));
    RenameStep(s, true);
    UndisturbedStep(s, ByWatcher(Rename(true)));
    s := Apply(s, ByWatcher(Rename(true)));
  }

  /** The ingest loop moves a submission whose payload encodes as `null` to failed/: accepted,
      yet in none of pending/, claimed/ and the store. */
  lemma NullPayloadIsLost(file: SpoolFile) returns (s: Sys)
    requires Submittable(file) && !Survives(file)
    ensures Reachable(s) && file.correlateID in s.dirs.accepted
    ensures var name := s.dirs.accepted[file.correlateID].name;
            name in s.dirs.failed && name !in s.dirs.pending && name !in s.dirs.claimed
    ensures file.correlateID !in s.exec.store.correlate
  {
    var name := "x.json";
    assert IsJobFile(name);
    s := SubmissionIsAccepted(file, {});
    s := PendingIsClaimed(s, name);
    UndisturbedStep(s, ByWatcher(Reject(true)));
    s := Apply(s, ByWatcher(Reject(true)));
  }

  /** A worker has claimed the job of this file, and nothing else has happened. */
  ghost predicate HasClaimed(s: Sys, file: SpoolFile, handlers: set<string>, worker: string) {
    var id := JobID(file.correlateID);
    && Undisturbed(s) && Reachable(s) && s.exec.phase.Up? && s.exec.handlers == handlers
    && id in s.exec.store.jobs && s.exec.store.jobs[id].state == Running
    && s.exec.store.jobs[id].spec.kind == file.spec.kind
    && s.exec.workers == map[worker := Attempt(s.exec.store.jobs[id], Claimed)]
    && RunningKey(worker, id) in s.exec.store.running
  }

  /** Every well-formed file can be ingested and its job claimed, on a first boot without any
      crash. */
  lemma SpooledIsClaimed(before: Sys, file: SpoolFile, handlers: set<string>, worker: string) returns (s: Sys)
    requires Spooled(before, file, handlers) && WellFormed(Json(file)) && worker != ""
    ensures HasClaimed(s, file, handlers, worker) && s.dirs.accepted == before.dirs.accepted
  {
    var name, id := "x.json", JobID(file.correlateID);
    assert IsJobFile(name);
    s := PendingIsClaimed(before, name);
    var ingest := Ingest(true, true, 0);
    assert IngestEnabled(s.dirs, s.exec.store, ingest) by { assert id[0] == 'j'; }
    UndisturbedStep(s, ByIngest(ingest));
    s := Apply(s, ByIngest(ingest));
    UndisturbedStep(s, ByWorker(Claim(worker, id, 0)));
    s := Apply(s, ByWorker(Claim(worker, id, 0)));
  }

  lemma ForeignClaimedThenCrash(file: SpoolFile) returns (s: Sys)
    requires WellFormed(Json(file))
    ensures var id := JobID(file.correlateID);
            && Reachable(s) && s.exec.phase.Down? && Orphan(s.exec, id) && s.dirs.accepted == map[]
            && RunningKey("worker-0", id) in s.exec.store.running
  {
    s := ForeignIsSpooled(file, {});
    s := SpooledIsClaimed(s, file, {}, "worker-0");
    ReachableStep(s, Crash);
    s := Apply(s, Crash);
  }

  /** Every well-formed file of another producer whose correlate id holds a colon has a run to the
      state ColonJobStuckForever is about. */
  lemma ColonJobIsOrphaned(file: SpoolFile) returns (s: Sys)
    requires WellFormed(Json(file)) && !ColonFree(file.correlateID)
    ensures Reachable(s) && Orphan(s.exec, JobID(file.correlateID)) && !ColonFree(JobID(file.correlateID))
    ensures file.correlateID !in s.dirs.accepted
  {
    s := ForeignClaimedThenCrash(file);
    var i :| 0 <= i < |file.correlateID| && file.correlateID[i] == ':';
    assert JobID(file.correlateID)[4 + i] == ':';
  }

  /** And every such file whose correlate id ends in a colon has a run to a store that never opens
      again. */
  lemma TrailingColonPoisons(file: SpoolFile) returns (s: Sys)
    requires WellFormed(Json(file)) && EndsInColon(file.correlateID)
    ensures Reachable(s) && s.exec.phase.Down? && Poisoned(s.exec.store) && !KeysReadable(s.exec.store)
    ensures file.correlateID !in s.dirs.accepted
  {
    s := ForeignClaimedThenCrash(file);
    assert EndsInColon(JobID(file.correlateID));
    ReadableExactly(s);
  }

  /** And every valid submission has a run, without any crash or shutdown, in which its handler
      answers with a cancellation and its job is left running with no owner. */
  lemma SubmissionIsStranded(file: SpoolFile) returns (s: Sys)
    requires Submittable(file) && Survives(file)
    ensures Undisturbed(s) && s.exec.phase.Up? && Orphan(s.exec, JobID(file.correlateID))
  {
    var spooled := SubmissionIsAccepted(file, {file.spec.kind});
    var before := SpooledIsClaimed(spooled, file, {file.spec.kind}, "worker-0");
    assert before.exec.workers["worker-0"].job.id == JobID(file.correlateID) by { ReachableInv(before); }
    var cancelled := Refusal("worker-0", None, "context canceled", Signals(true, false, false));
    GuardDecides(before, "worker-0", None, "context canceled", Signals(true, false, false));
    UndisturbedStep(before, cancelled);
    s := Apply(before, cancelled);
    LeavingStrands(s, "worker-0", Leave("worker-0"));
    UndisturbedStep(s, ByWorker(Leave("worker-0")));
    s := Apply(s, ByWorker(Leave("worker-0")));
  }
}
