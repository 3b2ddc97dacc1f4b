/** The worker pool and the boot sequence (ayenitd/executor.go, recovery at open in
    context/jobsstore/jobsstore.go): claim, run, then complete, requeue, fail or leave
    running. Workers interleave freely; a crash drops every in-flight attempt. */
module Executor {
  import opened Options
  import opened Text
  import opened Jobs
  import opened JobStore
  import opened Spool

  /** What the executor sees besides a handler's error: whether the error is, or wraps, a
      cancellation or a deadline, and which of the two contexts are done. */
  datatype Signals = Signals(cancellation: bool, runDone: bool, attemptDone: bool)

  /** Taken for an interruption and not a failure: the run is over, or the error is a
      cancellation that the attempt's own timeout does not explain. */
  predicate LeftRunning(j: Job, signals: Signals) {
    signals.runDone || (!(j.spec.timeout > 0 && signals.attemptDone) && signals.cancellation)
  }

  /** A worker between two of its calls; `left` if the attempt is to be left running. */
  datatype Stage =
    | Claimed
    | Handled(ok: bool, cp: Option<Checkpoint>, cause: string, left: bool)
    | Completing
    | Failing(retry: bool, cause: string)
    | Requeueing(cause: string)

  datatype Attempt = Attempt(job: Job, stage: Stage)

  datatype Phase = Down | Booting(todo: seq<(string, string)>, at: int) | Up

  datatype Exec = Exec(
    handlers: set<string>,
    store: Store,
    phase: Phase,
    workers: map<string, Attempt>,
    retries: map<string, nat>,      // history: requeues by the executor, per job
    recoveries: map<string, nat>)   // history: requeues by recovery, per job

  function Count(m: map<string, nat>, id: string): nat {
    if id in m then m[id] else 0
  }

  // ----- boot -----

  datatype Boot =
    | BootScan(found: seq<(string, string)>, now: int)
    | BootRecover
    | BootDone(handlers: set<string>)   // the handlers this process was built with

  ghost predicate BootEnabled(e: Exec, b: Boot) {
    match b
    case BootScan(found, _) => e.phase.Down? && KeysReadable(e.store) && ScanComplete(e.store, found)
    case BootRecover => e.phase.Booting? && e.phase.todo != [] && e.phase.todo[0].1 in e.store.jobs
    case BootDone(_) => e.phase.Booting? && e.phase.todo == []
  }

  ghost function ApplyBoot(e: Exec, b: Boot): Exec
    requires BootEnabled(e, b)
  {
    match b
    case BootScan(found, now) => e.(phase := Booting(found, now))
    case BootRecover =>
      var id := e.phase.todo[0].1;
      var store := RecoverOne(e.store, e.phase.todo[0].0, id, e.phase.at);
      e.(store := store, phase := Booting(e.phase.todo[1..], e.phase.at),
         recoveries := if e.store.jobs[id].state == Running && store.jobs[id].state == Queued
                       then e.recoveries[id := Count(e.recoveries, id) + 1] else e.recoveries)
    case BootDone(handlers) => e.(phase := Up, handlers := handlers)
  }

  // ----- workers -----

  datatype Work =
    | Claim(worker: string, id: string, now: int)
    | Handle(worker: string, ok: bool, cp: Option<Checkpoint>, cause: string, signals: Signals, loaded: bool)
    | Unknown(worker: string)
    | Save(worker: string, saved: bool)
    | Token(worker: string, found: bool)
    | Finish(worker: string, now: int)
    | Leave(worker: string)                 // the attempt counts as interrupted
    | UpdateFails(worker: string)           // the store refuses the attempt's last call
    | SelfSave(checkpoint: Checkpoint)      // a handler saves a checkpoint itself

  /** The record the attempt ends with. */
  function Outgoing(a: Attempt, now: int): Job {
    match a.stage
    case Completing => a.job.(state := Completed, completedAt := At(now), updatedAt := At(now))
    case Requeueing(cause) =>
      a.job.(lastError := cause, updatedAt := At(now), state := Queued,
             nextAttemptAt := At(now + NextBackoff(a.job.spec, a.job.attempt)))
    case Failing(_, cause) =>
      a.job.(lastError := cause, updatedAt := At(now), state := Failed, completedAt := At(now))
    case _ => a.job
  }

  predicate Ending(stage: Stage) {
    stage.Completing? || stage.Requeueing? || (stage.Failing? && !stage.retry)
  }

  /** What follows once the handler's checkpoint has been dealt with. */
  function AfterSave(a: Attempt, saved: bool): Stage
    requires a.stage.Handled?
  {
    if !a.stage.ok then Failing(a.job.attempt < MaxAttempts(a.job), a.stage.cause)
    else if a.stage.cp.None? || saved then Completing
    else Failing(false, "save checkpoint")
  }

  ghost predicate WorkEnabled(e: Exec, k: Work) {
    match k
    case Claim(worker, id, now) =>
      e.phase.Up? && worker != "" && worker !in e.workers && Claimable(e.store, id, now)
    case Handle(worker, _, _, _, _, loaded) =>
      && worker in e.workers && e.workers[worker].stage.Claimed?
      && e.workers[worker].job.spec.kind in e.handlers
      && (loaded ==> e.workers[worker].job.resumeToken != "" && e.workers[worker].job.id in e.store.checkpoints)
    case Unknown(worker) =>
      && worker in e.workers && e.workers[worker].stage.Claimed?
      && e.workers[worker].job.spec.kind !in e.handlers
    case Save(worker, _) => worker in e.workers && e.workers[worker].stage.Handled? && !e.workers[worker].stage.left
    case Token(worker, found) =>
      && worker in e.workers && e.workers[worker].stage.Failing? && e.workers[worker].stage.retry
      && (found ==> e.workers[worker].job.id in e.store.checkpoints)
    case Finish(worker, now) =>
      && worker in e.workers && Ending(e.workers[worker].stage)
      && e.workers[worker].job.id in e.store.jobs
      && Outgoing(e.workers[worker], now).Valid()
    case Leave(worker) => worker in e.workers && e.workers[worker].stage.Handled? && e.workers[worker].stage.left
    case UpdateFails(worker) => worker in e.workers && Ending(e.workers[worker].stage)
    case SelfSave(_) => e.phase.Up?
  }

  ghost function ApplyClaim(e: Exec, worker: string, id: string, now: int): Exec
    requires Claimable(e.store, id, now)
  {
    var store := JobStore.Claim(e.store, worker, id, now);
    e.(store := store, workers := e.workers[worker := Attempt(store.jobs[id], Claimed)])
  }

  /** The attempt's last store call, and the end of the attempt. */
  ghost function ApplyFinish(e: Exec, worker: string, job: Job): Exec
    requires job.id in e.store.jobs
  {
    e.(store := Update(e.store, job), workers := e.workers - {worker},
       retries := if job.state == Queued then e.retries[job.id := Count(e.retries, job.id) + 1] else e.retries)
  }

  /** The attempt after one of the calls in its middle. */
  ghost function Advanced(e: Exec, k: Work): Attempt
    requires (k.Handle? || k.Unknown? || k.Save? || k.Token?) && WorkEnabled(e, k)
  {
    var a := e.workers[k.worker];
    match k
    case Handle(_, ok, cp, cause, signals, loaded) =>
      Attempt(if loaded then a.job.(resumeCheckpoint := e.store.checkpoints[a.job.id].id) else a.job,
              Handled(ok, cp, cause, !ok && LeftRunning(a.job, signals)))
    case Unknown(_) => a.(stage := Failing(false, "unknown job kind"))
    case Save(_, saved) => a.(stage := AfterSave(a, saved))
    case Token(_, found) =>
      Attempt(if found then a.job.(resumeToken := a.job.id) else a.job, Requeueing(a.stage.cause))
  }

  ghost function ApplyWork(e: Exec, k: Work): Exec
    requires WorkEnabled(e, k)
  {
    match k
    case Claim(worker, id, now) => ApplyClaim(e, worker, id, now)
    case Save(worker, saved) =>
      var cp := e.workers[worker].stage.cp;
      e.(store := if cp.Some? && saved then SaveCheckpoint(e.store, cp.value) else e.store,
         workers := e.workers[worker := Advanced(e, k)])
    case Finish(worker, now) => ApplyFinish(e, worker, Outgoing(e.workers[worker], now))
    case Leave(worker) => e.(workers := e.workers - {worker})
    case UpdateFails(worker) => e.(workers := e.workers - {worker})
    case SelfSave(cp) => e.(store := SaveCheckpoint(e.store, cp))
    case _ => e.(workers := e.workers[k.worker := Advanced(e, k)])
  }

  // ----- what every action keeps -----

  /** A record's attempt budget against the requeues counted so far. */
  predicate Budgeted(j: Job, requeues: nat) {
    match j.state
    case Queued => j.attempt == requeues < MaxAttempts(j)
    case Running => j.attempt == requeues + 1 <= MaxAttempts(j)
    case Cancelled => false
    case _ => 1 <= j.attempt <= MaxAttempts(j) && requeues < MaxAttempts(j)
  }

  predicate TokenOk(token: string, id: string, checkpoints: map<string, Checkpoint>) {
    token != "" ==> token == id && id in checkpoints
  }

  ghost predicate JobOk(e: Exec, id: string)
    requires id in e.store.jobs
  {
    var j := e.store.jobs[id];
    && j.id == id && (j.state.Terminal() || j.completedAt == Zero)
    && TokenOk(j.resumeToken, id, e.store.checkpoints)
    && Budgeted(j, Count(e.retries, id) + Count(e.recoveries, id))
  }

  /** An in-flight attempt still owns the record it will write. */
  ghost predicate WorkerOk(e: Exec, w: string)
    requires w in e.workers
  {
    var a := e.workers[w];
    && a.job.id in e.store.jobs
    && var j := e.store.jobs[a.job.id];
    && j.state == Running && a.job.attempt == j.attempt && a.job.spec == j.spec && a.job.createdAt == j.createdAt
    && a.job.completedAt == Zero
    && TokenOk(a.job.resumeToken, a.job.id, e.store.checkpoints)
    && (a.stage.Requeueing? || (a.stage.Failing? && a.stage.retry) ==> a.job.attempt < MaxAttempts(a.job))
    && (a.job.spec.kind !in e.handlers ==> a.stage.Claimed? || (a.stage.Failing? && !a.stage.retry))
  }

  ghost predicate OneOwner(workers: map<string, Attempt>) {
    forall v, w :: v in workers && w in workers && workers[v].job.id == workers[w].job.id ==> v == w
  }

  ghost predicate JobsOk(e: Exec) {
    && (forall id :: id in e.store.jobs ==> JobOk(e, id))
    && e.retries.Keys + e.recoveries.Keys <= e.store.jobs.Keys
  }

  ghost predicate WorkersOk(e: Exec) {
    && (forall w :: w in e.workers ==> WorkerOk(e, w))
    && OneOwner(e.workers)
    && (!e.phase.Up? ==> e.workers == map[])
  }

  /** During boot, every interrupted attempt with a colon-free id is still to be visited. */
  ghost predicate BootOk(e: Exec) {
    e.phase.Booting? ==>
      && (forall f :: f in e.phase.todo ==> f.0 != "" && ColonFree(f.1) && f.1 in e.store.jobs)
      && (forall id :: id in e.store.jobs && e.store.jobs[id].state == Running && ColonFree(id) ==>
            exists f :: f in e.phase.todo && f.1 == id)
  }

  ghost predicate SpecsValid(s: Store) {
    forall id :: id in s.jobs ==> s.jobs[id].spec.Valid() && !s.jobs[id].spec.payload.NullEncoding?
  }

  ghost predicate ExecInv(e: Exec) {
    Named(e.store) && SpecsValid(e.store) && JobsOk(e) && WorkersOk(e) && BootOk(e)
  }

  // ----- the claim -----

  lemma ClaimOnJob(e: Exec, worker: string, id: string, now: int, x: string)
    requires Claimable(e.store, id, now) && x in e.store.jobs && JobOk(e, x)
    ensures JobOk(ApplyClaim(e, worker, id, now), x)
  {}

  lemma ClaimOnWorker(e: Exec, worker: string, id: string, now: int, w: string)
    requires Claimable(e.store, id, now) && JobOk(e, id)
    requires w in ApplyClaim(e, worker, id, now).workers && (w != worker ==> WorkerOk(e, w))
    ensures WorkerOk(ApplyClaim(e, worker, id, now), w)
  {}

  lemma ClaimKeepsOwners(e: Exec, worker: string, id: string, now: int)
    requires Claimable(e.store, id, now) && worker !in e.workers && JobOk(e, id)
    requires WorkersOk(e)
    ensures OneOwner(ApplyClaim(e, worker, id, now).workers)
  {
    forall w | w in e.workers ensures e.workers[w].job.id != id {
      assert WorkerOk(e, w);
    }
  }

  lemma ClaimPreserves(e: Exec, worker: string, id: string, now: int)
    requires JobsOk(e) && WorkersOk(e) && e.phase.Up?
    requires Claimable(e.store, id, now) && worker !in e.workers
    ensures JobsOk(ApplyClaim(e, worker, id, now)) && WorkersOk(ApplyClaim(e, worker, id, now))
  {
    var t := ApplyClaim(e, worker, id, now);
    assert JobOk(e, id);
    ClaimKeepsOwners(e, worker, id, now);
    forall x | x in t.store.jobs ensures JobOk(t, x) { ClaimOnJob(e, worker, id, now, x); }
    forall w | w in t.workers ensures WorkerOk(t, w) { ClaimOnWorker(e, worker, id, now, w); }
  }

  // ----- the calls in the middle of an attempt -----

  /** The store kept its records; checkpoints were only added. */
  ghost predicate OnlyCheckpoints(s: Store, t: Store) {
    && t.jobs == s.jobs && t.ready == s.ready && t.running == s.running && t.correlate == s.correlate
    && s.checkpoints.Keys <= t.checkpoints.Keys
  }

  /** Worker v moved within its attempt (or ended it); everyone else is as before. */
  ghost predicate OnlyWorker(e: Exec, t: Exec, v: string) {
    && OnlyCheckpoints(e.store, t.store) && t.handlers == e.handlers && t.phase == e.phase
    && t.retries == e.retries && t.recoveries == e.recoveries
    && t.workers.Keys <= e.workers.Keys
    && (forall w :: w in t.workers && w != v ==> t.workers[w] == e.workers[w])
    && (v in t.workers ==> t.workers[v].job.id == e.workers[v].job.id && WorkerOk(t, v))
  }

  lemma OwnersFrame(before: map<string, Attempt>, after: map<string, Attempt>)
    requires OneOwner(before) && after.Keys <= before.Keys
    requires forall w :: w in after ==> after[w].job.id == before[w].job.id
    ensures OneOwner(after)
  {}

  lemma OnlyWorkerPreserves(e: Exec, t: Exec, v: string)
    requires JobsOk(e) && WorkersOk(e) && OnlyWorker(e, t, v)
    ensures JobsOk(t) && WorkersOk(t)
  {
    forall id | id in t.store.jobs ensures JobOk(t, id) { assert JobOk(e, id); }
    forall w | w in t.workers ensures WorkerOk(t, w) { WorkerFrame(e, t, v, w); }
    OwnersFrame(e.workers, t.workers);
  }

  lemma WorkerFrame(e: Exec, t: Exec, v: string, w: string)
    requires WorkersOk(e) && OnlyWorker(e, t, v) && w in t.workers
    ensures WorkerOk(t, w)
  {
    assert WorkerOk(e, w);
  }

  /** The attempt ends and its record stays running. */
  predicate GivesUp(k: Work) {
    k.Leave? || k.UpdateFails?
  }

  lemma GivingUpShape(e: Exec, k: Work)
    requires GivesUp(k) && WorkEnabled(e, k)
    ensures k.worker in e.workers && ApplyWork(e, k) == e.(workers := e.workers - {k.worker})
  {}

  predicate Middle(k: Work) {
    k.Handle? || k.Unknown? || k.Save? || k.Token?
  }

  /** The attempt moved on, under the same job and attempt number. */
  ghost predicate Continues(e: Exec, a: Attempt, b: Attempt) {
    && b.job.id == a.job.id && b.job.attempt == a.job.attempt && b.job.spec == a.job.spec
    && b.job.createdAt == a.job.createdAt && b.job.completedAt == a.job.completedAt
    && TokenOk(b.job.resumeToken, b.job.id, e.store.checkpoints)
    && (b.stage.Requeueing? || (b.stage.Failing? && b.stage.retry) ==> b.job.attempt < MaxAttempts(b.job))
    && (b.job.spec.kind !in e.handlers ==> b.stage.Claimed? || (b.stage.Failing? && !b.stage.retry))
  }

  lemma AdvancedOk(e: Exec, k: Work)
    requires Middle(k) && WorkEnabled(e, k) && WorkerOk(e, k.worker)
    ensures Continues(e, e.workers[k.worker], Advanced(e, k))
  {}

  lemma MiddleShape(e: Exec, k: Work)
    requires Middle(k) && WorkEnabled(e, k)
    ensures var t := ApplyWork(e, k);
            && k.worker in e.workers
            && t == e.(store := t.store, workers := e.workers[k.worker := Advanced(e, k)])
            && OnlyCheckpoints(e.store, t.store)
  {}

  lemma ContinuesIsLocal(e: Exec, t: Exec, v: string, b: Attempt)
    requires v in e.workers && WorkerOk(e, v) && Continues(e, e.workers[v], b)
    requires t == e.(store := t.store, workers := e.workers[v := b]) && OnlyCheckpoints(e.store, t.store)
    ensures OnlyWorker(e, t, v)
  {}

  lemma MiddleIsLocal(e: Exec, k: Work)
    requires WorkersOk(e) && WorkEnabled(e, k) && !k.Claim? && !k.Finish? && !k.SelfSave?
    ensures OnlyWorker(e, ApplyWork(e, k), k.worker)
  {
    if !GivesUp(k) {
      MiddleShape(e, k);
      assert WorkerOk(e, k.worker);
      AdvancedOk(e, k);
      ContinuesIsLocal(e, ApplyWork(e, k), k.worker, Advanced(e, k));
    }
  }

  // ----- the end of an attempt -----

  /** What is known of the record an attempt ends with. */
  predicate EndsWith(a: Attempt, job: Job) {
    && job.id == a.job.id && job.spec == a.job.spec && job.attempt == a.job.attempt
    && job.resumeToken == a.job.resumeToken && (job.state == Queued ==> job.completedAt == a.job.completedAt)
    && job.state == match a.stage
                    case Completing => State.Completed
                    case Requeueing(_) => State.Queued
                    case _ => State.Failed
  }

  lemma OutgoingShape(a: Attempt, now: int)
    requires Ending(a.stage)
    ensures EndsWith(a, Outgoing(a, now))
  {}

  lemma FinishOnJob(e: Exec, w: string, job: Job, id: string)
    requires w in e.workers && WorkerOk(e, w) && Ending(e.workers[w].stage) && EndsWith(e.workers[w], job)
    requires id in e.store.jobs && JobOk(e, id) && JobOk(e, job.id)
    ensures JobOk(ApplyFinish(e, w, job), id)
  {}

  lemma FinishPreserves(e: Exec, w: string, job: Job)
    requires JobsOk(e) && WorkersOk(e)
    requires w in e.workers && Ending(e.workers[w].stage) && EndsWith(e.workers[w], job)
    requires job.id in e.store.jobs
    ensures JobsOk(ApplyFinish(e, w, job)) && WorkersOk(ApplyFinish(e, w, job))
  {
    var t := ApplyFinish(e, w, job);
    assert WorkerOk(e, w) && JobOk(e, job.id);
    forall id | id in t.store.jobs ensures JobOk(t, id) {
      assert JobOk(e, id);
      FinishOnJob(e, w, job, id);
    }
    forall v | v in t.workers ensures WorkerOk(t, v) {
      assert WorkerOk(e, v);
    }
  }

  // ----- any worker action -----

  lemma CheckpointNames(s: Store, t: Store)
    requires Named(s) && OnlyCheckpoints(s, t)
    ensures Named(t)
  {
    forall id | id in t.jobs && t.jobs[id].state == Running && ColonFree(id) ensures HasRunningKey(t, id) {
      assert HasRunningKey(s, id);
    }
  }

  ghost predicate SameSpecs(s: Store, t: Store) {
    && t.jobs.Keys == s.jobs.Keys && t.correlate == s.correlate
    && forall id :: id in s.jobs ==> t.jobs[id].spec == s.jobs[id].spec
  }

  lemma FinishKeepsStore(e: Exec, w: string, job: Job)
    requires Named(e.store) && w in e.workers && WorkerOk(e, w)
    requires EndsWith(e.workers[w], job)
    ensures Named(Update(e.store, job)) && SameSpecs(e.store, Update(e.store, job))
  {
    UpdateConsistent(e.store, job);
  }

  lemma LocalKeepsStore(s: Store, t: Store)
    requires Named(s) && OnlyCheckpoints(s, t)
    ensures Named(t) && SameSpecs(s, t)
  {
    CheckpointNames(s, t);
  }

  lemma FinishingKeepsStore(e: Exec, w: string, now: int)
    requires Named(e.store) && WorkersOk(e) && WorkEnabled(e, Finish(w, now))
    ensures Named(ApplyWork(e, Finish(w, now)).store)
    ensures SameSpecs(e.store, ApplyWork(e, Finish(w, now)).store)
  {
    assert WorkerOk(e, w);
    OutgoingShape(e.workers[w], now);
    FinishKeepsStore(e, w, Outgoing(e.workers[w], now));
  }

  lemma MiddleKeepsStore(e: Exec, k: Work)
    requires Named(e.store) && WorkersOk(e) && WorkEnabled(e, k) && !k.Claim? && !k.Finish?
    ensures Named(ApplyWork(e, k).store) && SameSpecs(e.store, ApplyWork(e, k).store)
  {
    if !k.SelfSave? { MiddleIsLocal(e, k); }
    LocalKeepsStore(e.store, ApplyWork(e, k).store);
  }

  /** Worker actions keep the indexes in agreement and never change a spec. */
  lemma WorkKeepsStore(e: Exec, k: Work)
    requires Named(e.store) && WorkersOk(e) && WorkEnabled(e, k)
    ensures Named(ApplyWork(e, k).store) && SameSpecs(e.store, ApplyWork(e, k).store)
  {
    match k
    case Claim(w, id, now) => ClaimKeepsStore(e.store, w, id, now);
    case Finish(w, now) => FinishingKeepsStore(e, w, now);
    case _ => MiddleKeepsStore(e, k);
  }

  lemma ClaimKeepsStore(s: Store, w: string, id: string, now: int)
    requires Named(s) && Claimable(s, id, now) && w != ""
    ensures Named(JobStore.Claim(s, w, id, now)) && SameSpecs(s, JobStore.Claim(s, w, id, now))
  {
    ClaimConsistent(s, w, id, now);
  }

  lemma WorkPreserves(e: Exec, k: Work)
    requires ExecInv(e) && WorkEnabled(e, k)
    ensures ExecInv(ApplyWork(e, k))
  {
    WorkKeepsStore(e, k);
    WorkKeepsRecords(e, k);
  }

  lemma FinishingKeepsRecords(e: Exec, w: string, now: int)
    requires JobsOk(e) && WorkersOk(e) && WorkEnabled(e, Finish(w, now))
    ensures JobsOk(ApplyWork(e, Finish(w, now))) && WorkersOk(ApplyWork(e, Finish(w, now)))
  {
    OutgoingShape(e.workers[w], now);
    FinishPreserves(e, w, Outgoing(e.workers[w], now));
  }

  lemma MiddleKeepsRecords(e: Exec, k: Work)
    requires JobsOk(e) && WorkersOk(e) && WorkEnabled(e, k) && !k.Claim? && !k.Finish?
    ensures JobsOk(ApplyWork(e, k)) && WorkersOk(ApplyWork(e, k))
  {
    var t := ApplyWork(e, k);
    if k.SelfSave? {
      forall id | id in t.store.jobs ensures JobOk(t, id) { assert JobOk(e, id); }
      forall w | w in t.workers ensures WorkerOk(t, w) { assert WorkerOk(e, w); }
    } else {
      MiddleIsLocal(e, k);
      OnlyWorkerPreserves(e, t, k.worker);
    }
  }

  lemma WorkKeepsPhase(e: Exec, k: Work)
    requires WorkersOk(e) && WorkEnabled(e, k)
    ensures ApplyWork(e, k).phase == e.phase == Up
  {}

  lemma WorkKeepsRecords(e: Exec, k: Work)
    requires JobsOk(e) && WorkersOk(e) && WorkEnabled(e, k)
    ensures JobsOk(ApplyWork(e, k)) && WorkersOk(ApplyWork(e, k)) && BootOk(ApplyWork(e, k))
  {
    WorkKeepsPhase(e, k);
    match k
    case Claim(w, id, now) => ClaimPreserves(e, w, id, now);
    case Finish(w, now) => FinishingKeepsRecords(e, w, now);
    case _ => MiddleKeepsRecords(e, k);
  }

  // ----- boot, crash and ingest -----

  lemma ScanFindsInterrupted(e: Exec, found: seq<(string, string)>, now: int)
    requires Named(e.store) && ScanComplete(e.store, found)
    ensures BootOk(e.(phase := Booting(found, now)))
  {
    forall id | id in e.store.jobs && e.store.jobs[id].state == Running && ColonFree(id)
      ensures exists f :: f in found && f.1 == id
    {
      assert HasRunningKey(e.store, id);
      var w :| w != "" && RunningKey(w, id) in e.store.running;
      RunningKeyRoundTrip(w, id);
      assert (w, id) in found;
    }
    forall f | f in found ensures f.0 != "" && ColonFree(f.1) && f.1 in e.store.jobs {
      assert Attributed(e.store, f);
    }
  }

  /** What recovery does to one record, as far as the attempt budget and the token go. */
  ghost predicate RecoveredAs(s: Store, j: Job, k: Job) {
    if j.state != Running then k == j
    else
      && k.id == j.id && k.spec == j.spec && k.attempt == j.attempt
      && (k.state == Queued ==> k.completedAt == Zero)
      && k.state == (if j.attempt < MaxAttempts(j) then Queued else State.Failed)
      && (k.resumeToken == j.resumeToken || (k.resumeToken == j.id && j.id in s.checkpoints))
  }

  lemma RecoverShape(s: Store, worker: string, id: string, now: int)
    requires id in s.jobs
    ensures RecoveredAs(s, s.jobs[id], RecoverOne(s, worker, id, now).jobs[id])
  {}

  /** The boot state after one recovery transaction, whatever delay it chose. */
  ghost predicate AfterRecovery(e: Exec, t: Exec, id: string) {
    && e.phase.Booting? && e.phase.todo != [] && id == e.phase.todo[0].1
    && id in e.store.jobs && t.store.jobs.Keys == e.store.jobs.Keys
    && t.store.checkpoints == e.store.checkpoints && t.handlers == e.handlers
    && RecoveredAs(e.store, e.store.jobs[id], t.store.jobs[id])
    && (forall x :: x in e.store.jobs && x != id ==> t.store.jobs[x] == e.store.jobs[x])
    && t.phase == Booting(e.phase.todo[1..], e.phase.at) && t.workers == e.workers && t.retries == e.retries
    && t.recoveries == (if e.store.jobs[id].state == Running && t.store.jobs[id].state == Queued
                        then e.recoveries[id := Count(e.recoveries, id) + 1] else e.recoveries)
  }

  lemma BootRecoverShape(e: Exec)
    requires BootEnabled(e, BootRecover)
    ensures AfterRecovery(e, ApplyBoot(e, BootRecover), e.phase.todo[0].1)
  {
    var f := e.phase.todo[0];
    RecoverOneFrame(e.store, f.0, f.1, e.phase.at);
    RecoverShape(e.store, f.0, f.1, e.phase.at);
  }

  lemma RecoveryOnJob(e: Exec, t: Exec, id: string, x: string)
    requires AfterRecovery(e, t, id) && x in e.store.jobs && JobOk(e, x)
    ensures JobOk(t, x)
  {}

  lemma RecoveryKeepsTodo(e: Exec, t: Exec, id: string)
    requires AfterRecovery(e, t, id) && BootOk(e)
    ensures BootOk(t)
  {
    forall x | x in t.store.jobs && t.store.jobs[x].state == Running && ColonFree(x)
      ensures exists f :: f in t.phase.todo && f.1 == x
    {
      var f :| f in e.phase.todo && f.1 == x;
      assert f != e.phase.todo[0];
      assert f in e.phase.todo[1..];
    }
  }

  lemma RecoveryKeepsRecords(e: Exec, t: Exec, id: string)
    requires AfterRecovery(e, t, id) && JobsOk(e) && WorkersOk(e) && BootOk(e)
    ensures JobsOk(t) && WorkersOk(t) && BootOk(t)
  {
    forall x | x in t.store.jobs ensures JobOk(t, x) {
      assert JobOk(e, x);
      RecoveryOnJob(e, t, id, x);
    }
    RecoveryKeepsTodo(e, t, id);
  }

  lemma RecoverKeepsStore(s: Store, worker: string, id: string, now: int)
    requires Named(s) && id in s.jobs && worker != "" && ColonFree(id)
    ensures Named(RecoverOne(s, worker, id, now)) && SameSpecs(s, RecoverOne(s, worker, id, now))
  {
    RecoverOneFrame(s, worker, id, now);
    RecoverOneConsistent(s, worker, id, now);
    NamedFrame(s, RecoverOne(s, worker, id, now));
  }

  lemma NamedFrame(s: Store, t: Store)
    requires Named(s) && Consistent(t) && SameSpecs(s, t)
    ensures Named(t)
  {}

  lemma BootPreserves(e: Exec, b: Boot)
    requires ExecInv(e) && BootEnabled(e, b)
    ensures ExecInv(ApplyBoot(e, b)) && SameSpecs(e.store, ApplyBoot(e, b).store)
  {
    match b
    case BootScan(found, now) =>
      ScanFindsInterrupted(e, found, now);
      SamePhaseless(e, ApplyBoot(e, b));
    case BootRecover =>
      var f := e.phase.todo[0];
      assert f in e.phase.todo;
      BootRecoverShape(e);
      RecoveryKeepsRecords(e, ApplyBoot(e, b), f.1);
      RecoverKeepsStore(e.store, f.0, f.1, e.phase.at);
    case BootDone(_) => SamePhaseless(e, ApplyBoot(e, b));
  }

  /** Outside the boot obligation nothing depends on the phase while no attempt is in flight. */
  lemma SamePhaseless(e: Exec, t: Exec)
    requires JobsOk(e) && WorkersOk(e) && e.workers == map[]
    requires t == e.(phase := t.phase, handlers := t.handlers)
    ensures JobsOk(t) && WorkersOk(t)
  {
    forall id | id in t.store.jobs ensures JobOk(t, id) { assert JobOk(e, id); }
  }

  function Crashed(e: Exec): Exec {
    e.(phase := Down, workers := map[])
  }

  lemma CrashPreserves(e: Exec)
    requires ExecInv(e)
    ensures ExecInv(Crashed(e))
  {
    forall id | id in e.store.jobs ensures JobOk(Crashed(e), id) { assert JobOk(e, id); }
  }

  /** The store gained at most the new, queued, never attempted job. */
  ghost predicate Grown(s: Store, t: Store) {
    && s.jobs.Keys <= t.jobs.Keys && t.checkpoints == s.checkpoints
    && (forall id :: id in s.jobs ==> t.jobs[id] == s.jobs[id])
    && (forall id :: id in t.jobs && id !in s.jobs ==>
          t.jobs[id].id == id && t.jobs[id].state == Queued && t.jobs[id].attempt == 0 &&
          t.jobs[id].completedAt == Zero && t.jobs[id].resumeToken == "")
  }

  lemma IngestGrows(d: Dirs, store: Store, i: Ingest)
    requires IngestEnabled(d, store, i)
    ensures Grown(store, IngestedStore(d, store, i))
  {}

  lemma GrownPreserves(e: Exec, next: Store)
    requires JobsOk(e) && WorkersOk(e) && e.phase.Up? && Grown(e.store, next)
    ensures JobsOk(e.(store := next)) && WorkersOk(e.(store := next))
  {
    var t := e.(store := next);
    forall id | id in t.store.jobs ensures JobOk(t, id) {
      if id in e.store.jobs { assert JobOk(e, id); }
    }
    forall w | w in t.workers ensures WorkerOk(t, w) { assert WorkerOk(e, w); }
  }

  lemma IngestValid(d: Dirs, store: Store, i: Ingest)
    requires IngestEnabled(d, store, i) && SpecsValid(store)
    ensures SpecsValid(IngestedStore(d, store, i))
  {}

  lemma IngestKeepsExec(e: Exec, d: Dirs, i: Ingest)
    requires ExecInv(e) && e.phase.Up? && IngestEnabled(d, e.store, i)
    ensures ExecInv(e.(store := IngestedStore(d, e.store, i)))
  {
    IngestGrows(d, e.store, i);
    IngestNames(d, e.store, i);
    IngestValid(d, e.store, i);
    GrownPreserves(e, IngestedStore(d, e.store, i));
  }
}
