/** The runner's own code in its imperative form: one ingest pass over the spool
    (ayenitd/spool.go) and one attempt of a worker (ayenitd/executor.go). Every call that may
    fail takes its outcome from an arbitrary choice, and every call is matched, as it happens,
    by an action of the transition system. */
module Runner {
  import opened Options
  import opened Text
  import opened Jobs
  import opened JobStore
  import opened Spool
  import opened Executor
  import opened Pipeline

  lemma {:induction false} LeastStringExists(names: set<string>) returns (least: string)
    requires names != {}
    ensures least in names && forall n :: n in names ==> StringLeq(least, n)
    decreases |names|
  {
    var any :| any in names;
    StringLeqTotal(any, any);
    if names == {any} {
      return any;
    }
    least := LeastStringExists(names - {any});
    StringLeqTotal(any, least);
    if !StringLeq(least, any) {
      forall n | n in names ensures StringLeq(any, n) {
        if n != any { StringLeqTransitive(any, least, n); }
      }
      least := any;
    }
  }

  /** The file has been dealt with: its correlate id is known, or it lies in failed/. */
  ghost predicate Settled(data: Data, known: set<string>, failed: set<string>, name: string) {
    if WellFormed(data) then data.file.correlateID in known else name in failed
  }

  ghost predicate AllSettled(start: map<string, Data>, except: set<string>, known: set<string>, failed: set<string>) {
    forall n :: n in start && IsJobFile(n) && n !in except ==> Settled(start[n], known, failed, n)
  }

  ghost function JobFiles(dir: map<string, Data>): set<string> {
    set n | n in dir && IsJobFile(n)
  }

  ghost predicate Within(m: map<string, Data>, start: map<string, Data>) {
    forall n :: n in m ==> n in start && m[n] == start[n]
  }

  /** What is not among the names is as it was. */
  ghost predicate KeptBut(start: map<string, Data>, m: map<string, Data>, names: set<string>) {
    forall n :: n in start && n !in names ==> n in m && m[n] == start[n]
  }

  lemma StillKept(start: map<string, Data>, m: map<string, Data>, m': map<string, Data>, names: set<string>,
                  name: string)
    requires KeptBut(start, m, names) && name in names && m' - {name} == m - {name}
    ensures KeptBut(start, m', names)
  {
    forall n | n in start && n !in names ensures n in m' && m'[n] == start[n] {
      assert n in m - {name} && (m - {name})[n] == m[n];
    }
  }

  lemma KeptSettled(start: map<string, Data>, m: map<string, Data>, names: set<string>, known: set<string>,
                    failed: set<string>)
    requires KeptBut(start, m, names) && AllSettled(m, {}, known, failed)
    ensures AllSettled(start, names, known, failed)
  {
    forall n | n in start && IsJobFile(n) && n !in names ensures Settled(start[n], known, failed, n) {
      assert Settled(m[n], known, failed, n);
    }
  }

  lemma StillSettled(start: map<string, Data>, except: set<string>,
                     known: set<string>, failed: set<string>, known': set<string>, failed': set<string>)
    requires AllSettled(start, except, known, failed) && known <= known' && failed <= failed'
    ensures AllSettled(start, except, known', failed')
  {
    forall n | n in start && IsJobFile(n) && n !in except ensures Settled(start[n], known', failed', n) {
      assert Settled(start[n], known, failed, n);
    }
  }

  lemma OneMoreSettled(start: map<string, Data>, names: set<string>, name: string,
                       known: set<string>, failed: set<string>, known': set<string>, failed': set<string>)
    requires AllSettled(start, names, known, failed) && known <= known' && failed <= failed'
    requires name in start && Settled(start[name], known', failed', name)
    ensures AllSettled(start, names - {name}, known', failed')
  {
    StillSettled(start, names, known, failed, known', failed');
  }

  /** The store call succeeds or is not made: either way an action, and a call that is made
      leaves the correlate id known. */
  lemma HoldingIsCreatable(s: Sys, made: bool, now: int)
    requires Reachable(s) && s.exec.phase.Up? && s.dirs.watcher.Holding? && WellFormed(s.dirs.watcher.data)
    ensures Enabled(s, ByIngest(Ingest(made, made, now)))
    ensures var next := Create(s.exec.store, Materialize(Decoded(s.dirs.watcher.data.file), now)).0;
            && Apply(s, ByIngest(Ingest(made, made, now)))
               == Sys(ApplyIngest(s.dirs, Ingest(made, made, now)),
                      s.exec.(store := if made then next else s.exec.store))
            && s.dirs.watcher.data.file.correlateID in next.correlate
            && s.exec.store.correlate.Keys <= next.correlate.Keys
  {
    assert Named(s.exec.store) by { ReachableInv(s); }
    MaterializedIsKnown(s.exec.store, Decoded(s.dirs.watcher.data.file), now);
  }

  class Process {
    var pending: map<string, Data>
    var claimed: map<string, Data>
    var failed: map<string, Data>
    const db: Database
    const handlers: set<string>
    ghost var sys: Sys   // the matching state of the transition system

    ghost predicate Coupled()
      reads this, db
    {
      && Reachable(sys) && sys.exec.phase.Up? && sys.exec.handlers == handlers
      && sys.dirs.pending == pending && sys.dirs.claimed == claimed && sys.dirs.failed == failed
      && db.View() == sys.exec.store
    }

    /** First boot on an empty state directory. */
    constructor (handlers: set<string>)
      ensures Coupled() && fresh(db) && sys.dirs.watcher == Idle
      ensures this.handlers == handlers && db.View() == EMPTY
      ensures pending == map[] && claimed == map[] && failed == map[]
    {
      this.handlers := handlers;
      pending, claimed, failed := map[], map[], map[];
      db := new Database();
      sys := Init(handlers);
      new;
      InitReachable(handlers);
      EmptyScan(sys);
      Take(ByBoot(BootScan([], 0)));
      Take(ByBoot(BootDone(handlers)));
    }

    ghost method Take(a: Action)
      requires Reachable(sys) && Enabled(sys, a)
      modifies this`sys
      ensures sys == Apply(old(sys), a) && Reachable(sys)
    {
      ReachableStep(sys, a);
      sys := Apply(sys, a);
    }

    method Chance(faults: bool) returns (ok: bool)
      ensures !faults ==> ok
    {
      ok := *;
      ok := ok || !faults;
    }

    /** Reads a pending file and renames it into claimed/. */
    method ClaimFile(name: string, faults: bool) returns (data: Data, ok: bool)
      requires Coupled() && sys.dirs.watcher == Idle && IsJobFile(name) && name in pending
      modifies this`pending, this`claimed, this`sys
      ensures Coupled() && data == old(pending)[name] && (!faults ==> ok)
      ensures sys.dirs.watcher == if ok then Holding(name, data) else Idle
      ensures pending == if ok then old(pending) - {name} else old(pending)
      ensures claimed == if ok then old(claimed)[name := data] else old(claimed)
    {
      data := pending[name];
      ReadStep(sys, name);
      Take(ByWatcher(ReadPending(name)));
      ok := Chance(faults);
      RenameStep(sys, ok);
      Take(ByWatcher(Rename(ok)));
      if ok {
        claimed := claimed[name := pending[name]];
        pending := pending - {name};
      }
    }

    /** Moves a malformed claimed file to failed/; a failing rename leaves it where it is. */
    method FailFile(name: string, faults: bool)
      requires Coupled() && name in claimed
      requires sys.dirs.watcher == Holding(name, claimed[name]) && !WellFormed(claimed[name])
      modifies this`claimed, this`failed, this`sys
      ensures Coupled() && sys.dirs.watcher == Idle
      ensures (claimed == old(claimed) - {name} && failed == old(failed)[name := old(claimed)[name]]) ||
              (faults && claimed == old(claimed) && failed == old(failed))
    {
      var moved := Chance(faults);
      Take(ByWatcher(Reject(moved)));
      if moved {
        failed := failed[name := claimed[name]];
        claimed := claimed - {name};
      }
    }

    method RemoveFile(name: string, faults: bool)
      requires Coupled() && sys.dirs.watcher == Recorded(name)
      modifies this`claimed, this`sys
      ensures Coupled() && sys.dirs.watcher == Idle
      ensures claimed == old(claimed) - {name} || (faults && claimed == old(claimed))
    {
      var removed := Chance(faults);
      Take(ByWatcher(Remove(removed)));
      if removed {
        claimed := claimed - {name};
      }
    }

    /** Parses a claimed file and records its job. Without faults the file is gone from
        claimed/ afterwards: its correlate id is in the store, or it is malformed and lies in
        failed/. */
    method ParseAndRecord(name: string, now: int, faults: bool)
      requires Coupled() && name in claimed && sys.dirs.watcher == Holding(name, claimed[name])
      modifies this`claimed, this`failed, this`sys, db
      ensures Coupled() && sys.dirs.watcher == Idle
      ensures old(db.correlate).Keys <= db.correlate.Keys && old(failed).Keys <= failed.Keys
      ensures claimed == old(claimed) - {name} || (faults && claimed == old(claimed))
      ensures !faults ==> Settled(old(claimed)[name], db.correlate.Keys, failed.Keys, name)
      ensures failed == old(failed) || failed == old(failed)[name := old(claimed)[name]]
    {
      var data := claimed[name];
      if !WellFormed(data) {
        FailFile(name, faults);
        return;
      }
      var known := Record(data, now, faults);
      if known {
        RemoveFile(name, faults);
      }
    }

    /** One file through the whole of ingest, from pending/ or left over in claimed/. */
    method IngestFile(name: string, fromPending: bool, now: int, faults: bool)
      requires Coupled() && sys.dirs.watcher == Idle && IsJobFile(name)
      modifies this`pending, this`claimed, this`failed, this`sys, db
      ensures Coupled() && sys.dirs.watcher == Idle
      ensures old(db.correlate).Keys <= db.correlate.Keys && old(failed).Keys <= failed.Keys
      ensures fromPending || pending == old(pending)
      ensures claimed - {name} == old(claimed) - {name}
      ensures !faults && fromPending ==> pending == old(pending) - {name}
      ensures !faults && !fromPending ==> claimed == old(claimed) - {name}
      ensures !faults && fromPending && name in old(pending) ==>
                Settled(old(pending)[name], db.correlate.Keys, failed.Keys, name)
      ensures !faults && !fromPending && name in old(claimed) ==>
                Settled(old(claimed)[name], db.correlate.Keys, failed.Keys, name)
    {
      if fromPending {
        if name !in pending {
          return;
        }
        var data, ok := ClaimFile(name, faults);
        if !ok {
          return;
        }
      } else {
        if name !in claimed {
          return;
        }
        Take(ByWatcher(ReadClaimed(name)));
      }
      ParseAndRecord(name, now, faults);
    }

    /** The store call: an unavailable store leaves the file for the next pass, an already
        known correlate id is not an error. */
    method Record(data: Data, now: int, faults: bool) returns (known: bool)
      requires Coupled() && sys.dirs.watcher.Holding? && sys.dirs.watcher.data == data && WellFormed(data)
      modifies this`sys, db
      ensures Coupled() && sys.dirs == ApplyIngest(old(sys.dirs), Ingest(known, known, now))
      ensures old(db.correlate).Keys <= db.correlate.Keys
      ensures !faults ==> known
      ensures known ==> data.file.correlateID in db.correlate
    {
      var job := Materialize(Decoded(data.file), now);
      known := Chance(faults);
      HoldingIsCreatable(sys, known, now);
      if known {
        var outcome := db.CreateJob(job);
      }
      Take(ByIngest(Ingest(known, known, now)));
    }

    method DrainPending(now: int, faults: bool)
      requires Coupled() && sys.dirs.watcher == Idle
      modifies this`pending, this`claimed, this`failed, this`sys, db
      ensures Coupled() && sys.dirs.watcher == Idle
      ensures !faults ==> JobFiles(pending) == {}
      ensures !faults ==> AllSettled(old(pending), {}, db.correlate.Keys, failed.Keys)
      ensures !faults ==> KeptBut(old(claimed), claimed, JobFiles(old(pending)))
    {
      ghost var start := pending;
      var names := set n | n in pending && IsJobFile(n);
      while names != {}
        invariant Coupled() && sys.dirs.watcher == Idle
        invariant forall n :: n in names ==> IsJobFile(n)
        invariant !faults ==> names == JobFiles(pending) && Within(pending, start)
        invariant !faults ==> KeptBut(old(claimed), claimed, JobFiles(start))
        invariant !faults ==> AllSettled(start, names, db.correlate.Keys, failed.Keys)
        decreases |names|
      {
        var proceed := Chance(faults);
        if !proceed {
          return;
        }
        ghost var least := LeastStringExists(names);
        var name :| name in names && forall n :: n in names ==> StringLeq(name, n);
        ghost var before, known, bad, held := names, db.correlate.Keys, failed.Keys, claimed;
        assert !faults ==> name in JobFiles(start);
        names := names - {name};
        IngestFile(name, true, now, faults);
        if !faults {
          StillKept(old(claimed), held, claimed, JobFiles(start), name);
          OneMoreSettled(start, before, name, known, bad, db.correlate.Keys, failed.Keys);
        }
      }
    }

    method DrainClaimed(now: int, faults: bool)
      requires Coupled() && sys.dirs.watcher == Idle
      modifies this`pending, this`claimed, this`failed, this`sys, db
      ensures Coupled() && sys.dirs.watcher == Idle && pending == old(pending)
      ensures old(db.correlate).Keys <= db.correlate.Keys && old(failed).Keys <= failed.Keys
      ensures !faults ==> JobFiles(claimed) == {}
      ensures !faults ==> AllSettled(old(claimed), {}, db.correlate.Keys, failed.Keys)
    {
      ghost var start := claimed;
      var names := set n | n in claimed && IsJobFile(n);
      while names != {}
        invariant Coupled() && sys.dirs.watcher == Idle && pending == old(pending)
        invariant old(db.correlate).Keys <= db.correlate.Keys && old(failed).Keys <= failed.Keys
        invariant forall n :: n in names ==> IsJobFile(n)
        invariant !faults ==> names == JobFiles(claimed) && Within(claimed, start)
        invariant !faults ==> AllSettled(start, names, db.correlate.Keys, failed.Keys)
        decreases |names|
      {
        var proceed := Chance(faults);
        if !proceed {
          return;
        }
        var name :| name in names;
        ghost var before, known, bad := names, db.correlate.Keys, failed.Keys;
        names := names - {name};
        IngestFile(name, false, now, faults);
        if !faults {
          OneMoreSettled(start, before, name, known, bad, db.correlate.Keys, failed.Keys);
        }
      }
    }

    /** One pass: every .json file in pending/, in name order, then every .json file left in
        claimed/. Without faults the spool holds no job file afterwards, every well-formed
        submission that was pending, or left claimed, is in the store and every malformed one in
        failed/. */
    method DrainOnce(now: int, faults: bool)
      requires Coupled() && sys.dirs.watcher == Idle
      modifies this`pending, this`claimed, this`failed, this`sys, db
      ensures Coupled() && sys.dirs.watcher == Idle
      ensures !faults ==> JobFiles(pending) == {} && JobFiles(claimed) == {}
      ensures !faults ==> AllSettled(old(pending), {}, db.correlate.Keys, failed.Keys)
      ensures !faults ==> AllSettled(old(claimed), JobFiles(old(pending)), db.correlate.Keys, failed.Keys)
    {
      ghost var start, held := pending, claimed;
      DrainPending(now, faults);
      ghost var known, bad, left := db.correlate.Keys, failed.Keys, claimed;
      DrainClaimed(now, faults);
      if !faults {
        KeptSettled(held, left, JobFiles(start), db.correlate.Keys, failed.Keys);
        StillSettled(start, {}, known, bad, db.correlate.Keys, failed.Keys);
      }
    }

    // ----- one attempt of a worker -----

    ghost predicate Working(worker: string, job: Job, stage: Stage)
      reads this, db
    {
      Coupled() && worker in sys.exec.workers && sys.exec.workers[worker] == Attempt(job, stage)
    }

    /** The last store call of an attempt; a refused update leaves the job running. */
    method FinishAttempt(worker: string, ghost job: Job, ghost stage: Stage, record: Job, updated: bool, now: int)
      returns (ok: bool)
      requires Working(worker, job, stage) && Ending(stage) && record == Outgoing(Attempt(job, stage), now)
      modifies this`sys, db
      ensures Coupled() && worker !in sys.exec.workers
      ensures ok <==> updated && job.createdAt <= now
      ensures ok ==> record.id in old(db.jobs) && db.jobs == old(db.jobs)[record.id := record]
      ensures !ok ==> db.View() == old(db.View())
      ensures db.checkpoints == old(db.checkpoints)
    {
      OwnerHoldsRecord(sys, worker);
      LastRecordIsValid(sys, worker, now);
      ok := updated;
      if updated {
        ok := db.UpdateJob(record);
      }
      if ok {
        Take(ByWorker(Finish(worker, now)));
      } else {
        Take(ByWorker(UpdateFails(worker)));
      }
    }

    /** The failure rule: back to the queue with a delay, and with a resume token when a
        checkpoint is stored, as long as attempts remain; otherwise failed for good. */
    method FailAttempt(worker: string, job: Job, cause: string, retry: bool, updated: bool, now: int) returns (ok: bool)
      requires Working(worker, job, Failing(retry, cause))
      modifies this`sys, db
      ensures Coupled() && worker !in sys.exec.workers && db.checkpoints == old(db.checkpoints)
      ensures ok <==> updated && job.createdAt <= now
      ensures if ok then OnlyRecord(old(db.jobs), db.jobs, job.id) else db.jobs == old(db.jobs)
      ensures ok && !retry ==> FailedAs(db.jobs[job.id], job, cause, now)
      ensures ok && retry ==> RequeuedAs(db.jobs[job.id], job, cause, job.id in db.checkpoints, now)
    {
      if retry {
        ok := RequeueAttempt(worker, job, cause, updated, now);
      } else {
        var record := job.(lastError := cause, updatedAt := At(now), state := State.Failed, completedAt := At(now));
        ok := FinishAttempt(worker, job, Failing(false, cause), record, updated, now);
      }
    }

    /** A requeued job is resumable if a checkpoint is stored. */
    method SetToken(worker: string, job: Job, ghost cause: string) returns (queued: Job)
      requires Working(worker, job, Failing(true, cause))
      modifies this`sys
      ensures Working(worker, queued, Requeueing(cause))
      ensures queued == if job.id in db.checkpoints then job.(resumeToken := job.id) else job
    {
      var found := job.id in db.checkpoints;
      queued := if found then job.(resumeToken := job.id) else job;
      TokenStep(sys, worker, found);
      Take(ByWorker(Token(worker, found)));
    }

    method RequeueAttempt(worker: string, job: Job, cause: string, updated: bool, now: int) returns (ok: bool)
      requires Working(worker, job, Failing(true, cause))
      modifies this`sys, db
      ensures Coupled() && worker !in sys.exec.workers && db.checkpoints == old(db.checkpoints)
      ensures ok <==> updated && job.createdAt <= now
      ensures if ok then OnlyRecord(old(db.jobs), db.jobs, job.id) else db.jobs == old(db.jobs)
      ensures ok ==> RequeuedAs(db.jobs[job.id], job, cause, job.id in db.checkpoints, now)
    {
      OwnerIsValid(sys, worker);
      BackoffOfValidSpec(job.spec, job.attempt);
      var queued := SetToken(worker, job, cause);
      var record := queued.(lastError := cause, updatedAt := At(now), state := Queued,
                            nextAttemptAt := At(now + NextBackoff(queued.spec, queued.attempt)));
      ok := FinishAttempt(worker, queued, Requeueing(cause), record, updated, now);
    }

    /** Resume metadata, then the handler. */
    method CallHandler(worker: string, claimed: Job, ok: bool, cp: Option<Checkpoint>, cause: string,
                       ghost signals: Signals)
      returns (job: Job)
      requires Working(worker, claimed, Claimed) && claimed.spec.kind in handlers
      modifies this`sys
      ensures Working(worker, job, Handled(ok, cp, cause, !ok && LeftRunning(claimed, signals)))
      ensures job == claimed.(resumeCheckpoint := job.resumeCheckpoint)
      ensures claimed.resumeToken != "" && claimed.id in db.checkpoints ==>
                job.resumeCheckpoint == db.checkpoints[claimed.id].id
    {
      job := claimed;
      var loaded := job.resumeToken != "" && job.id in db.checkpoints;
      if loaded {
        job := job.(resumeCheckpoint := db.checkpoints[job.id].id);
      }
      Take(ByWorker(Handle(worker, ok, cp, cause, signals, loaded)));
    }

    /** The handler's checkpoint is persisted before any transition of the record. */
    method SaveAttempt(worker: string, job: Job, ok: bool, cp: Option<Checkpoint>, ghost cause: string, saved: bool)
      requires Working(worker, job, Handled(ok, cp, cause, false))
      modifies this`sys, db
      ensures Working(worker, job, AfterSave(Attempt(job, Handled(ok, cp, cause, false)), saved))
      ensures db.checkpoints == if cp.Some? && saved then old(db.checkpoints)[cp.value.jobID := cp.value]
                                else old(db.checkpoints)
      ensures db.jobs == old(db.jobs)
    {
      if cp.Some? && saved {
        db.PutCheckpoint(cp.value);
      }
      Take(ByWorker(Save(worker, saved)));
    }

    /** A worker's attempt from the claimed job to its end, for any answer of the handler. The
        record changes exactly if the update goes through and the attempt is not an interrupted
        one: a handler's error with the run over, or a cancellation that no timeout of the
        attempt explains. */
    method RunAttempt(worker: string, claimed: Job, ok: bool, cp: Option<Checkpoint>, cause: string,
                      signals: Signals, saved: bool, updated: bool, now: int) returns (done: bool)
      requires Working(worker, claimed, Claimed)
      modifies this`sys, db
      ensures Coupled() && worker !in sys.exec.workers
      ensures done <==>
                && updated && claimed.createdAt <= now
                && !(&& claimed.spec.kind in handlers && !ok
                     && (signals.runDone
                         || (signals.cancellation && !(claimed.spec.timeout > 0 && signals.attemptDone))))
      ensures if done then OnlyRecord(old(db.jobs), db.jobs, claimed.id) else db.jobs == old(db.jobs)
      ensures done ==> EndedAs(db.jobs[claimed.id], claimed, claimed.spec.kind in handlers, ok, cp.None? || saved,
                               cause, claimed.id in db.checkpoints, now)
    {
      if claimed.spec.kind !in handlers {
        Take(ByWorker(Unknown(worker)));
        done := FailAttempt(worker, claimed, "unknown job kind", false, updated, now);
        return;
      }
      done := RunHandler(worker, claimed, ok, cp, cause, signals, saved, updated, now);
    }

    /** An attempt whose kind has a handler. */
    method RunHandler(worker: string, claimed: Job, ok: bool, cp: Option<Checkpoint>, cause: string,
                      signals: Signals, saved: bool, updated: bool, now: int) returns (done: bool)
      requires Working(worker, claimed, Claimed) && claimed.spec.kind in handlers
      modifies this`sys, db
      ensures Coupled() && worker !in sys.exec.workers
      ensures done <==> updated && claimed.createdAt <= now && !(!ok && LeftRunning(claimed, signals))
      ensures if done then OnlyRecord(old(db.jobs), db.jobs, claimed.id) else db.jobs == old(db.jobs)
      ensures done ==> EndedAs(db.jobs[claimed.id], claimed, true, ok, cp.None? || saved, cause,
                               claimed.id in db.checkpoints, now)
    {
      var job := CallHandler(worker, claimed, ok, cp, cause, signals);
      var attemptExpired := claimed.spec.timeout > 0 && signals.attemptDone;
      if !ok && (signals.runDone || (!attemptExpired && signals.cancellation)) {
        Take(ByWorker(Leave(worker)));
        return false;
      }
      SaveAttempt(worker, job, ok, cp, cause, saved);
      done := EndAttempt(worker, job, ok, cp, cause, saved, updated, now);
      if done {
        ResumedAlike(db.jobs[job.id], claimed, job, ok, cp.None? || saved, cause, job.id in db.checkpoints, now);
      }
    }

    /** The end of an attempt that is not left running. */
    method EndAttempt(worker: string, job: Job, ok: bool, cp: Option<Checkpoint>, cause: string,
                      saved: bool, updated: bool, now: int) returns (done: bool)
      requires Working(worker, job, AfterSave(Attempt(job, Handled(ok, cp, cause, false)), saved))
      requires job.spec.kind in handlers
      modifies this`sys, db
      ensures Coupled() && worker !in sys.exec.workers
      ensures done <==> updated && job.createdAt <= now
      ensures if done then OnlyRecord(old(db.jobs), db.jobs, job.id) else db.jobs == old(db.jobs)
      ensures done ==> EndedAs(db.jobs[job.id], job, true, ok, cp.None? || saved, cause, job.id in db.checkpoints, now)
    {
      if !ok {
        done := FailAttempt(worker, job, cause, job.attempt < MaxAttempts(job), updated, now);
      } else if cp.Some? && !saved {
        done := FailAttempt(worker, job, "save checkpoint", false, updated, now);
      } else {
        var record := job.(state := Completed, completedAt := At(now), updatedAt := At(now));
        done := FinishAttempt(worker, job, Completing, record, updated, now);
      }
    }

    /** One turn of the worker loop: the job that goes first in the first queue where one waits,
        marked running and its attempt raised; or nothing waits. */
    method ClaimJob(worker: string, queues: seq<string>, now: int) returns (claimed: Option<Job>)
      requires Coupled() && worker != "" && worker !in sys.exec.workers
      modifies this`sys, db
      ensures claimed.Some? ==> Working(worker, claimed.value, Claimed)
      ensures claimed.None? ==> Coupled() && sys == old(sys) && db.View() == old(db.View())
      ensures claimed.None? ==> forall i, x :: 0 <= i < |queues| ==> !Waiting(old(db.View()), x, queues[i], now)
      ensures claimed.Some? ==> Chosen(old(db.View()), queues, now, claimed.value.id)
      ensures claimed.Some? ==>
                var c := old(db.jobs)[claimed.value.id];
                && claimed.value == c.(state := Running, attempt := c.attempt + 1, updatedAt := At(now))
                && db.jobs == old(db.jobs)[claimed.value.id := claimed.value]
    {
      assert Consistent(sys.exec.store) by { ReachableInv(sys); }
      claimed := db.ClaimNext(worker, queues, now);
      if claimed.Some? {
        Take(ByWorker(Claim(worker, claimed.value.id, now)));
      }
    }
  }

  // ----- what an attempt leaves behind, field by field -----

  /** At most this one record has changed. */
  ghost predicate OnlyRecord(before: map<string, Job>, after: map<string, Job>, id: string) {
    id in before && after.Keys == before.Keys && forall x :: x in before && x != id ==> after[x] == before[x]
  }

  /** The same job and attempt, touched now. */
  predicate SameAttempt(r: Job, j: Job, now: int) {
    r.id == j.id && r.spec == j.spec && r.attempt == j.attempt && r.createdAt == j.createdAt && r.updatedAt == At(now)
  }

  predicate CompletedAs(r: Job, j: Job, now: int) {
    SameAttempt(r, j, now) && r.state == State.Completed && r.completedAt == At(now) && r.lastError == j.lastError
  }

  predicate FailedAs(r: Job, j: Job, cause: string, now: int) {
    SameAttempt(r, j, now) && r.state == State.Failed && r.completedAt == At(now) && r.lastError == cause
  }

  /** Queued again after the documented delay, resumable if a checkpoint is stored. */
  predicate RequeuedAs(r: Job, j: Job, cause: string, checkpointed: bool, now: int) {
    && SameAttempt(r, j, now) && r.state == State.Queued && r.lastError == cause
    && r.nextAttemptAt == At(now + DocumentedDelay(j.spec, j.attempt))
    && r.resumeToken == (if checkpointed then j.id else j.resumeToken)
  }

  /** No handler and an unsaved final checkpoint fail for good, success completes, and a failure
      is retried while attempts remain: as many as the spec allows, but one at least. */
  predicate EndedAs(r: Job, j: Job, known: bool, ok: bool, kept: bool, cause: string, checkpointed: bool, now: int) {
    if !known then FailedAs(r, j, "unknown job kind", now)
    else if ok then (if kept then CompletedAs(r, j, now) else FailedAs(r, j, "save checkpoint", now))
    else if j.attempt < (if j.spec.maxAttempts <= 0 then 1 else j.spec.maxAttempts)
    then RequeuedAs(r, j, cause, checkpointed, now)
    else FailedAs(r, j, cause, now)
  }

  /** The checkpoint shown to the handler plays no part. */
  lemma ResumedAlike(r: Job, j: Job, k: Job, ok: bool, kept: bool, cause: string, checkpointed: bool, now: int)
    requires k == j.(resumeCheckpoint := k.resumeCheckpoint) && EndedAs(r, k, true, ok, kept, cause, checkpointed, now)
    ensures EndedAs(r, j, true, ok, kept, cause, checkpointed, now)
  {}

  lemma OwnerIsValid(s: Sys, worker: string)
    requires Reachable(s) && worker in s.exec.workers
    ensures s.exec.workers[worker].job.spec.Valid()
  {
    ReachableInv(s);
    assert WorkerOk(s.exec, worker);
  }

  lemma TokenStep(s: Sys, worker: string, found: bool)
    requires WorkEnabled(s.exec, Token(worker, found))
    ensures var a := s.exec.workers[worker];
            var b := Attempt(if found then a.job.(resumeToken := a.job.id) else a.job, Requeueing(a.stage.cause));
            Apply(s, ByWorker(Token(worker, found))) == s.(exec := s.exec.(workers := s.exec.workers[worker := b]))
  {}

  lemma LastRecordIsValid(s: Sys, worker: string, now: int)
    requires Reachable(s) && worker in s.exec.workers && Ending(s.exec.workers[worker].stage)
    ensures Outgoing(s.exec.workers[worker], now).Valid() <==> s.exec.workers[worker].job.createdAt <= now
  {
    ReachableInv(s);
    FinishIsValid(s.exec, worker, now);
  }

  lemma OwnerHoldsRecord(s: Sys, worker: string)
    requires Reachable(s) && worker in s.exec.workers
    ensures s.exec.workers[worker].job.id in s.exec.store.jobs
  {
    SingleOwner(s, worker);
  }
}
