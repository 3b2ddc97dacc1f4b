/** The durable jobs store (context/jobsstore/jobsstore.go): canonical records, the ready
    and running indexes, the idempotent-ingest index, checkpoints, and the recovery pass
    run at open. Every function below is one store transaction. */
module JobStore {
  import opened Options
  import opened Text
  import opened Jobs

  // ----- index keys -----

  function RunningKey(worker: string, id: string): string {
    "w:" + worker + ":" + id
  }

  function ParseRunningKey(key: string): Option<(string, string)> {
    var rest := if |key| >= 2 && key[..2] == "w:" then key[2..] else key;
    var i := LastColon(rest);
    if i <= 0 || i == |rest| - 1 then None else Some((rest[..i], rest[i + 1..]))
  }

  /** The key splits back into its worker and job exactly when the job id is non-empty and
      holds no colon. */
  lemma RunningKeyRoundTrip(worker: string, id: string)
    requires worker != ""
    ensures ParseRunningKey(RunningKey(worker, id)) == Some((worker, id)) <==> id != "" && ColonFree(id)
  {
    var key := RunningKey(worker, id);
    var rest := worker + ":" + id;
    assert key[..2] == "w:" && key[2..] == rest;
    var i := LastColon(rest);
    assert rest[|worker|] == ':';
    assert i >= |worker|;
    if ColonFree(id) {
      assert forall k :: |worker| < k < |rest| ==> rest[k] == id[k - |worker| - 1];
      assert i == |worker|;
      assert rest[..i] == worker && rest[i + 1..] == id;
    } else {
      var k :| 0 <= k < |id| && id[k] == ':';
      assert rest[|worker| + 1 + k] == ':';
      assert i > |worker|;
    }
  }

  /** A key is unreadable exactly if its job id ends in a colon. */
  lemma UnreadableExactly(worker: string, id: string)
    requires worker != "" && id != ""
    ensures ParseRunningKey(RunningKey(worker, id)).None? <==> id[|id| - 1] == ':'
  {
    var key := RunningKey(worker, id);
    var rest := worker + ":" + id;
    assert key[..2] == "w:" && key[2..] == rest;
    assert rest[|worker|] == ':' && rest[|rest| - 1] == id[|id| - 1];
    assert LastColon(rest) >= |worker|;
  }

  /** A parsed job id never holds a colon and is never empty. */
  lemma ParsedIdColonFree(key: string)
    requires ParseRunningKey(key).Some?
    ensures ColonFree(ParseRunningKey(key).value.1) && ParseRunningKey(key).value.1 != ""
  {}

  /** q:{queue}:{999999-priority}:{created}:{job}: the claim order of one queue. */
  datatype ReadyKey = ReadyKey(queue: string, rank: int, created: int, id: string)

  function ReadyKeyOf(j: Job): ReadyKey {
    var p := j.spec.priority;
    var clamped := if p < 0 then 0 else if p > 999999 then 999999 else p;
    ReadyKey(j.spec.queue, 999999 - clamped, j.createdAt, j.id)
  }

  // ----- store states -----

  datatype Store = Store(
    jobs: map<string, Job>,
    ready: set<ReadyKey>,
    running: set<string>,
    correlate: map<string, string>,
    checkpoints: map<string, Checkpoint>)

  const EMPTY := Store(map[], {}, {}, map[], map[])

  ghost predicate HasRunningKey(s: Store, id: string) {
    exists worker :: worker != "" && RunningKey(worker, id) in s.running
  }

  ghost predicate Identified(s: Store) {
    forall id :: id in s.jobs ==> s.jobs[id].id == id && id != ""
  }

  /** The ingest index and the records name each other. */
  ghost predicate Correlated(s: Store) {
    && (forall id :: id in s.jobs && s.jobs[id].spec.correlateID != "" ==>
          s.jobs[id].spec.correlateID in s.correlate && s.correlate[s.jobs[id].spec.correlateID] == id)
    && (forall c :: c in s.correlate ==>
          s.correlate[c] in s.jobs && s.jobs[s.correlate[c]].spec.correlateID == c)
  }

  /** The ready index holds exactly the queued jobs: nothing queued is unclaimable. */
  ghost predicate ReadyExact(s: Store) {
    forall k :: k in s.ready <==>
      k.id in s.jobs && s.jobs[k.id].state == Queued && k == ReadyKeyOf(s.jobs[k.id])
  }

  ghost predicate RunningKnown(s: Store) {
    forall id :: id in s.jobs && s.jobs[id].state == Running && ColonFree(id) ==> HasRunningKey(s, id)
  }

  /** Indexes agree with the canonical records. */
  ghost predicate Consistent(s: Store) {
    Identified(s) && Correlated(s) && ReadyExact(s) && RunningKnown(s)
  }

  datatype Outcome = Accepted | Exists | Refused

  function Inserted(s: Store, job: Job): Store {
    s.(jobs := s.jobs[job.id := job],
       correlate := if job.spec.correlateID == "" then s.correlate
                    else s.correlate[job.spec.correlateID := job.id],
       ready := if job.state == Queued then s.ready + {ReadyKeyOf(job)} else s.ready)
  }

  function Create(s: Store, job: Job): (Store, Outcome) {
    if !job.Valid() then (s, Refused)
    else if job.id in s.jobs then (s, Exists)
    else if job.spec.correlateID != "" && job.spec.correlateID in s.correlate then (s, Exists)
    else
      (Inserted(s, job), Accepted)
  }

  function Update(s: Store, job: Job): Store
    requires job.id in s.jobs
  {
    var prior := s.jobs[job.id];
    var dropped := if prior.state == Queued then s.ready - {ReadyKeyOf(prior)} else s.ready;
    s.(jobs := s.jobs[job.id := job],
       ready := if job.state == Queued then dropped + {ReadyKeyOf(job)} else dropped)
  }

  predicate Due(j: Job, now: int) {
    j.nextAttemptAt.Zero? || j.nextAttemptAt.ns <= now
  }

  predicate Claimable(s: Store, id: string, now: int) {
    id in s.jobs && s.jobs[id].state == Queued && Due(s.jobs[id], now)
  }

  function Started(j: Job, now: int): Job {
    j.(state := Running, attempt := j.attempt + 1, updatedAt := At(now))
  }

  function Claim(s: Store, worker: string, id: string, now: int): Store
    requires Claimable(s, id, now)
  {
    var j := s.jobs[id];
    s.(jobs := s.jobs[id := Started(j, now)],
       ready := s.ready - {ReadyKeyOf(j)},
       running := s.running + {RunningKey(worker, id)})
  }

  function SaveCheckpoint(s: Store, cp: Checkpoint): Store {
    s.(checkpoints := s.checkpoints[cp.jobID := cp])
  }

  /** The record an interrupted attempt becomes at the next open. */
  function Interrupted(s: Store, j: Job, now: int): Job {
    var failed := j.(state := Failed, lastError := "interrupted by restart",
                     completedAt := At(now), updatedAt := At(now));
    if j.attempt < MaxAttempts(j) then
      failed.(state := Queued,
              nextAttemptAt := At(now + NextBackoff(j.spec, j.attempt)),
              completedAt := Zero,
              resumeToken := if j.id in s.checkpoints then j.id else j.resumeToken)
    else failed
  }

  function RecoverOne(s: Store, worker: string, id: string, now: int): Store
    requires id in s.jobs
  {
    var dropped := s.(running := s.running - {RunningKey(worker, id)});
    if s.jobs[id].state != Running then dropped
    else
      var j := Interrupted(s, s.jobs[id], now);
      dropped.(jobs := s.jobs[id := j],
               ready := if j.state == Queued then s.ready + {ReadyKeyOf(j)} else s.ready)
  }

  // ----- every transaction keeps the indexes in agreement -----

  /** The recovery scan could miss a running record of this id: it is colon-free and has no key. */
  ghost predicate Unkeyed(s: Store, id: string) {
    ColonFree(id) && !HasRunningKey(s, id)
  }

  lemma RunningKept(s: Store, t: Store, except: string)
    requires RunningKnown(s) && t.running == s.running && except in t.jobs && t.jobs.Keys == s.jobs.Keys + {except}
    requires forall id :: id in s.jobs && id != except ==> t.jobs[id] == s.jobs[id]
    ensures RunningKnown(t) <==> !(t.jobs[except].state == Running && Unkeyed(s, except))
  {
    forall id | id in t.jobs ensures HasRunningKey(t, id) <==> HasRunningKey(s, id) {
      if w :| w != "" && RunningKey(w, id) in s.running { assert RunningKey(w, id) in t.running; }
      if w :| w != "" && RunningKey(w, id) in t.running { assert RunningKey(w, id) in s.running; }
    }
  }

  lemma InsertedIndexes(s: Store, job: Job)
    requires Consistent(s) && job.id != "" && job.id !in s.jobs
    requires job.spec.correlateID == "" || job.spec.correlateID !in s.correlate
    ensures var t := Inserted(s, job); Identified(t) && Correlated(t) && ReadyExact(t)
  {}

  /** Create keeps the indexes consistent exactly unless it stores a job already running that
      recovery could not find. */
  lemma CreateConsistent(s: Store, job: Job)
    requires Consistent(s)
    ensures Consistent(Create(s, job).0) <==>
            !(Create(s, job).1 == Accepted && job.state == Running && Unkeyed(s, job.id))
  {
    if Create(s, job).1 == Accepted {
      assert job.id != "";
      InsertedIndexes(s, job);
      RunningKept(s, Inserted(s, job), job.id);
    }
  }

  lemma UpdatedIndexes(s: Store, job: Job)
    requires Consistent(s) && job.id in s.jobs
    ensures var t := Update(s, job);
            && Identified(t) && ReadyExact(t)
            && (Correlated(t) <==> job.spec.correlateID == s.jobs[job.id].spec.correlateID)
  {
    var t := Update(s, job);
    var was, now := s.jobs[job.id].spec.correlateID, job.spec.correlateID;
    if was != now && was != "" {
      assert was in t.correlate && t.correlate[was] == job.id && t.jobs[job.id].spec.correlateID != was;
    } else if was != now {
      assert !(now in t.correlate && t.correlate[now] == job.id) by {
        assert now in s.correlate ==> s.jobs[s.correlate[now]].spec.correlateID == now;
      }
      assert t.jobs[job.id].spec.correlateID == now != "";
    }
  }

  /** Update keeps the indexes consistent exactly if it leaves the correlate id alone and does
      not mark a job running that recovery could not find. */
  lemma UpdateConsistent(s: Store, job: Job)
    requires Consistent(s) && job.id in s.jobs
    ensures Consistent(Update(s, job)) <==>
            job.spec.correlateID == s.jobs[job.id].spec.correlateID && !(job.state == Running && Unkeyed(s, job.id))
  {
    UpdatedIndexes(s, job);
    RunningKept(s, Update(s, job), job.id);
  }

  lemma ClaimConsistent(s: Store, worker: string, id: string, now: int)
    requires Consistent(s) && Claimable(s, id, now) && worker != ""
    ensures Consistent(Claim(s, worker, id, now))
  {
    var t := Claim(s, worker, id, now);
    assert RunningKey(worker, id) in t.running;
    forall x | x in t.jobs && t.jobs[x].state == Running && ColonFree(x)
      ensures HasRunningKey(t, x)
    {
      if x != id {
        assert HasRunningKey(s, x);
        var w :| w != "" && RunningKey(w, x) in s.running;
        assert RunningKey(w, x) in t.running;
      }
    }
  }

  /** Dropping the entry of one colon-free job never drops the entry of another. */
  lemma RunningKeyDistinct(worker: string, id: string, other: string, x: string)
    requires worker != "" && other != "" && id != x && id != "" && x != ""
    requires ColonFree(id) && ColonFree(x)
    ensures RunningKey(worker, id) != RunningKey(other, x)
  {
    RunningKeyRoundTrip(worker, id);
    RunningKeyRoundTrip(other, x);
  }

  lemma InterruptedShape(s: Store, j: Job, now: int)
    ensures var k := Interrupted(s, j, now);
            k.state != Running && k.id == j.id && k.spec == j.spec && k.attempt == j.attempt &&
            ReadyKeyOf(k) == ReadyKeyOf(j)
  {}

  lemma DropRunningKey(s: Store, worker: string, id: string, x: string)
    requires Consistent(s) && id in s.jobs && worker != "" && ColonFree(id)
    requires x in s.jobs && s.jobs[x].state == Running && ColonFree(x) && x != id
    ensures HasRunningKey(s.(running := s.running - {RunningKey(worker, id)}), x)
  {
    assert HasRunningKey(s, x);
    var w :| w != "" && RunningKey(w, x) in s.running;
    RunningKeyDistinct(worker, id, w, x);
    assert RunningKey(w, x) in s.running - {RunningKey(worker, id)};
  }

  lemma ReplaceConsistent(s: Store, worker: string, id: string, j: Job)
    requires Consistent(s) && id in s.jobs && worker != "" && ColonFree(id)
    requires s.jobs[id].state == Running && j.state != Running
    requires j.id == id && j.spec == s.jobs[id].spec
    ensures Consistent(s.(running := s.running - {RunningKey(worker, id)},
                          jobs := s.jobs[id := j],
                          ready := if j.state == Queued then s.ready + {ReadyKeyOf(j)} else s.ready))
  {
    var t := s.(running := s.running - {RunningKey(worker, id)},
                jobs := s.jobs[id := j],
                ready := if j.state == Queued then s.ready + {ReadyKeyOf(j)} else s.ready);
    forall x | x in t.jobs && t.jobs[x].state == Running && ColonFree(x)
      ensures HasRunningKey(t, x)
    {
      DropRunningKey(s, worker, id, x);
    }
  }

  lemma RecoverOneConsistent(s: Store, worker: string, id: string, now: int)
    requires Consistent(s) && id in s.jobs && worker != "" && ColonFree(id)
    ensures Consistent(RecoverOne(s, worker, id, now))
    ensures RecoverOne(s, worker, id, now).jobs[id].state != Running
  {
    InterruptedShape(s, s.jobs[id], now);
    if s.jobs[id].state == Running {
      ReplaceConsistent(s, worker, id, Interrupted(s, s.jobs[id], now));
    } else {
      var t := RecoverOne(s, worker, id, now);
      forall x | x in t.jobs && t.jobs[x].state == Running && ColonFree(x)
        ensures HasRunningKey(t, x)
      {
        DropRunningKey(s, worker, id, x);
      }
    }
  }

  // ----- recovery at open -----

  /** The recovery scan attributes some running-index entry to the job. */
  ghost predicate Reached(s: Store, id: string) {
    exists key :: key in s.running && ParseRunningKey(key).Some? && ParseRunningKey(key).value.1 == id
  }

  predicate KeysReadable(s: Store) {
    forall key :: key in s.running ==> ParseRunningKey(key).Some?
  }

  /** What one whole recovery pass leaves behind. */
  ghost predicate Recovered(s: Store, t: Store, now: int) {
    && t.jobs.Keys == s.jobs.Keys
    && t.correlate == s.correlate && t.checkpoints == s.checkpoints
    && (forall id :: id in s.jobs ==>
          t.jobs[id] == if s.jobs[id].state == Running && Reached(s, id)
                        then Interrupted(s, s.jobs[id], now) else s.jobs[id])
  }

  /** A job left running by a dead process leaves that state at the next open exactly when
      its id holds no colon: any other id is misread from the running index. */
  lemma RecoveryReachesExactlyColonFree(s: Store, t: Store, now: int, id: string)
    requires Consistent(s) && Recovered(s, t, now)
    requires id in s.jobs && s.jobs[id].state == Running
    ensures t.jobs[id].state != Running <==> ColonFree(id)
  {
    if ColonFree(id) {
      assert HasRunningKey(s, id);
      var w :| w != "" && RunningKey(w, id) in s.running;
      RunningKeyRoundTrip(w, id);
      assert Reached(s, id);
    } else if Reached(s, id) {
      var key :| key in s.running && ParseRunningKey(key).Some? && ParseRunningKey(key).value.1 == id;
      ParsedIdColonFree(key);
    }
  }

  /** What becomes of a running record at a restart, field by field: queued again after the
      documented delay while attempts remain, resumable if a checkpoint is stored, and failed for
      good otherwise. */
  predicate RestartedAs(j: Job, k: Job, checkpointed: bool, now: int) {
    && k.id == j.id && k.spec == j.spec && k.attempt == j.attempt && k.createdAt == j.createdAt
    && k.resumeCheckpoint == j.resumeCheckpoint
    && k.lastError == "interrupted by restart" && k.updatedAt == At(now)
    && if j.attempt < (if j.spec.maxAttempts <= 0 then 1 else j.spec.maxAttempts) then
         && k.state == Queued && k.completedAt == Zero
         && k.nextAttemptAt == At(now + DocumentedDelay(j.spec, j.attempt))
         && k.resumeToken == (if checkpointed then j.id else j.resumeToken)
       else
         && k.state == Failed && k.completedAt == At(now)
         && k.nextAttemptAt == j.nextAttemptAt && k.resumeToken == j.resumeToken
  }

  lemma InterruptedIsRestarted(s: Store, j: Job, now: int)
    requires j.spec.Valid()
    ensures RestartedAs(j, Interrupted(s, j, now), j.id in s.checkpoints, now)
  {
    BackoffOfValidSpec(j.spec, j.attempt);
  }

  lemma RecoverOneRecord(s: Store, worker: string, id: string, now: int)
    requires id in s.jobs && s.jobs[id].id == id && s.jobs[id].spec.Valid()
    ensures var k := RecoverOne(s, worker, id, now).jobs[id];
            if s.jobs[id].state == Running then RestartedAs(s.jobs[id], k, id in s.checkpoints, now)
            else k == s.jobs[id]
  {
    InterruptedIsRestarted(s, s.jobs[id], now);
  }

  /** A whole recovery pass, record by record: exactly the running jobs with colon-free ids are
      restarted, and every other record is as it was. */
  lemma RecoveredRecord(s: Store, t: Store, now: int, id: string)
    requires Consistent(s) && Recovered(s, t, now) && id in s.jobs && s.jobs[id].spec.Valid()
    ensures id in t.jobs
    ensures if s.jobs[id].state == Running && ColonFree(id)
            then RestartedAs(s.jobs[id], t.jobs[id], id in s.checkpoints, now)
            else t.jobs[id] == s.jobs[id]
  {
    InterruptedIsRestarted(s, s.jobs[id], now);
    if s.jobs[id].state == Running {
      if ColonFree(id) {
        assert HasRunningKey(s, id);
        var w :| w != "" && RunningKey(w, id) in s.running;
        RunningKeyRoundTrip(w, id);
        assert Reached(s, id);
      } else if Reached(s, id) {
        var key :| key in s.running && ParseRunningKey(key).Some? && ParseRunningKey(key).value.1 == id;
        ParsedIdColonFree(key);
      }
    }
  }

  /** Some reached records are recovered, the rest are as they were. */
  ghost predicate PartlyRecovered(s: Store, t: Store, now: int) {
    && t.jobs.Keys == s.jobs.Keys
    && t.correlate == s.correlate && t.checkpoints == s.checkpoints
    && (forall id :: id in s.jobs ==>
          t.jobs[id] == s.jobs[id] ||
          (s.jobs[id].state == Running && Reached(s, id) && t.jobs[id] == Interrupted(s, s.jobs[id], now)))
  }

  ghost predicate Attributed(s: Store, f: (string, string)) {
    f.0 != "" && ColonFree(f.1) && f.1 in s.jobs && Reached(s, f.1)
  }

  ghost predicate ScanComplete(s: Store, found: seq<(string, string)>) {
    && (forall f :: f in found ==> Attributed(s, f))
    && (forall key :: key in s.running && ParseRunningKey(key).Some? && ParseRunningKey(key).value.1 in s.jobs ==>
          ParseRunningKey(key).value in found)
  }

  /** A scan of any keys of the store can be completed. */
  lemma {:induction false} ScanExists(s: Store, keys: set<string>) returns (found: seq<(string, string)>)
    requires keys <= s.running
    ensures forall f :: f in found ==> Attributed(s, f)
    ensures forall key :: key in keys && ParseRunningKey(key).Some? && ParseRunningKey(key).value.1 in s.jobs ==>
              ParseRunningKey(key).value in found
    decreases |keys|
  {
    found := [];
    if keys != {} {
      var key :| key in keys;
      found := ScanExists(s, keys - {key});
      var parsed := ParseRunningKey(key);
      if parsed.Some? && parsed.value.1 in s.jobs {
        ParsedIdColonFree(key);
        assert Reached(s, parsed.value.1);
        found := found + [parsed.value];
      }
      assert forall k :: k in keys ==> k == key || k in keys - {key};
    }
  }

  lemma RecoverOnePartly(s: Store, t: Store, worker: string, id: string, now: int)
    requires PartlyRecovered(s, t, now) && id in s.jobs && Reached(s, id)
    ensures PartlyRecovered(s, RecoverOne(t, worker, id, now), now)
  {
    InterruptedShape(s, s.jobs[id], now);
    if t.jobs[id].state == Running {
      assert t.jobs[id] == s.jobs[id];
      assert Interrupted(t, t.jobs[id], now) == Interrupted(s, s.jobs[id], now);
    }
  }

  /** The first i found entries have been recovered. */
  ghost predicate RecoveryAt(s: Store, t: Store, found: seq<(string, string)>, i: nat, now: int) {
    Consistent(t) && PartlyRecovered(s, t, now) && ScanComplete(s, found) && AllDone(t, found, i)
  }

  lemma RecoveryStart(s: Store, found: seq<(string, string)>, now: int)
    requires Consistent(s) && ScanComplete(s, found)
    ensures RecoveryAt(s, s, found, 0, now)
  {
    forall h | 0 <= h < |found| ensures found[h].1 in s.jobs {
      assert Attributed(s, found[h]);
    }
  }

  lemma RecoverOneFrame(t: Store, worker: string, id: string, now: int)
    requires id in t.jobs
    ensures var u := RecoverOne(t, worker, id, now);
            && u.jobs.Keys == t.jobs.Keys && u.correlate == t.correlate && u.checkpoints == t.checkpoints
            && u.jobs[id].state != Running
            && (t.jobs[id].state != Running ==> u.jobs[id] == t.jobs[id])
            && u.jobs[id].spec == t.jobs[id].spec && u.jobs[id].id == t.jobs[id].id
            && (forall x :: x in t.jobs && x != id ==> u.jobs[x] == t.jobs[x])
  {
    InterruptedShape(t, t.jobs[id], now);
  }

  ghost predicate AllDone(t: Store, found: seq<(string, string)>, i: nat) {
    && i <= |found|
    && (forall h :: 0 <= h < |found| ==> found[h].1 in t.jobs)
    && (forall h :: 0 <= h < i ==> t.jobs[found[h].1].state != Running)
  }

  lemma DoneStep(t: Store, found: seq<(string, string)>, i: nat, now: int)
    requires AllDone(t, found, i) && i < |found|
    ensures AllDone(RecoverOne(t, found[i].0, found[i].1, now), found, i + 1)
  {
    RecoverOneFrame(t, found[i].0, found[i].1, now);
    var u := RecoverOne(t, found[i].0, found[i].1, now);
    forall h | 0 <= h < i + 1 ensures u.jobs[found[h].1].state != Running {
      if found[h].1 != found[i].1 { assert u.jobs[found[h].1] == t.jobs[found[h].1]; }
    }
  }

  lemma RecoveryStep(s: Store, t: Store, found: seq<(string, string)>, i: nat, now: int)
    requires RecoveryAt(s, t, found, i, now) && i < |found|
    ensures RecoveryAt(s, RecoverOne(t, found[i].0, found[i].1, now), found, i + 1, now)
  {
    assert Attributed(s, found[i]);
    DoneStep(t, found, i, now);
    RecoverOneConsistent(t, found[i].0, found[i].1, now);
    RecoverOnePartly(s, t, found[i].0, found[i].1, now);
  }

  lemma AllRecovered(s: Store, t: Store, found: seq<(string, string)>, now: int)
    requires RecoveryAt(s, t, found, |found|, now)
    ensures Recovered(s, t, now) && Consistent(t)
  {
    forall id | id in s.jobs && s.jobs[id].state == Running && Reached(s, id)
      ensures t.jobs[id] == Interrupted(s, s.jobs[id], now)
    {
      var key :| key in s.running && ParseRunningKey(key).Some? && ParseRunningKey(key).value.1 == id;
      assert ParseRunningKey(key).value in found;
    }
  }

  // ----- claim order -----

  /** Byte-wise order of strings. */
  predicate StringLeq(a: string, b: string)
    decreases |a|
  {
    a == "" || (b != "" && (a[0] < b[0] || (a[0] == b[0] && StringLeq(a[1..], b[1..]))))
  }

  /** Claim order inside a queue: priority descending, then creation time, then id. */
  predicate KeyLeq(a: ReadyKey, b: ReadyKey) {
    a.rank < b.rank || (a.rank == b.rank &&
    (a.created < b.created || (a.created == b.created && StringLeq(a.id, b.id))))
  }

  lemma {:induction false} StringLeqTotal(a: string, b: string)
    ensures StringLeq(a, b) || StringLeq(b, a)
    decreases |a|
  {
    if a != "" && b != "" && a[0] == b[0] {
      StringLeqTotal(a[1..], b[1..]);
    }
  }

  lemma {:induction false} StringLeqTransitive(a: string, b: string, c: string)
    requires StringLeq(a, b) && StringLeq(b, c)
    ensures StringLeq(a, c)
    decreases |a|
  {
    if a != "" && a[0] == b[0] && b[0] == c[0] {
      StringLeqTransitive(a[1..], b[1..], c[1..]);
    }
  }

  lemma {:induction false} LeastKeyExists(keys: set<ReadyKey>) returns (least: ReadyKey)
    requires keys != {}
    ensures least in keys && forall k :: k in keys ==> KeyLeq(least, k)
    decreases |keys|
  {
    var any :| any in keys;
    StringLeqTotal(any.id, any.id);
    if keys == {any} {
      return any;
    }
    var rest := keys - {any};
    least := LeastKeyExists(rest);
    StringLeqTotal(any.id, least.id);
    if !KeyLeq(least, any) {
      forall k | k in keys ensures KeyLeq(any, k) {
        if k != any {
          assert KeyLeq(least, k);
          if any.rank == least.rank == k.rank && any.created == least.created == k.created {
            StringLeqTransitive(any.id, least.id, k.id);
          }
        }
      }
      least := any;
    }
  }

  /** A ready-index entry Claim may hand out. */
  predicate Live(s: Store, k: ReadyKey, now: int) {
    k in s.ready && k.id in s.jobs && s.jobs[k.id].state == Queued && Due(s.jobs[k.id], now)
  }

  ghost predicate NoneDue(s: Store, queue: string, now: int) {
    forall k :: Live(s, k, now) ==> k.queue != queue
  }

  /** First due entry: earlier queues have none, and none in its own queue comes before it. */
  ghost predicate FirstDue(s: Store, queues: seq<string>, now: int, k: ReadyKey) {
    && Live(s, k, now)
    && (forall x :: Live(s, x, now) && x.queue == k.queue ==> KeyLeq(k, x))
    && exists i :: 0 <= i < |queues| && queues[i] == k.queue &&
                   forall h :: 0 <= h < i ==> NoneDue(s, queues[h], now)
  }

  // ----- the same by the records alone -----

  /** A queued job of the queue whose time has come. */
  predicate Waiting(s: Store, id: string, queue: string, now: int) {
    && id in s.jobs && s.jobs[id].state == Queued && s.jobs[id].spec.queue == queue
    && (s.jobs[id].nextAttemptAt == Zero || (s.jobs[id].nextAttemptAt.At? && s.jobs[id].nextAttemptAt.ns <= now))
  }

  /** Byte-wise: equal, a beginning, or smaller at the first difference. */
  ghost predicate ComesFirst(a: string, b: string) {
    a <= b || exists k :: 0 <= k < |a| && k < |b| && a[..k] == b[..k] && a[k] < b[k]
  }

  /** Higher priority first, priorities counting from 0 to 999999; then the older job; then the
      smaller id. */
  ghost predicate GoesBefore(c: Job, j: Job) {
    var p := if c.spec.priority < 0 then 0 else if c.spec.priority > 999999 then 999999 else c.spec.priority;
    var q := if j.spec.priority < 0 then 0 else if j.spec.priority > 999999 then 999999 else j.spec.priority;
    p > q || (p == q && (c.createdAt < j.createdAt || (c.createdAt == j.createdAt && ComesFirst(c.id, j.id))))
  }

  lemma {:induction false} StringLeqIsComesFirst(a: string, b: string)
    requires StringLeq(a, b)
    ensures ComesFirst(a, b)
    decreases |a|
  {
    if a != "" {
      if a[0] < b[0] {
        assert a[..0] == b[..0];
      } else {
        StringLeqIsComesFirst(a[1..], b[1..]);
        if a[1..] <= b[1..] {
          assert a == [a[0]] + a[1..] && b == [b[0]] + b[1..];
        } else {
          var k :| 0 <= k < |a[1..]| && k < |b[1..]| && a[1..][..k] == b[1..][..k] && a[1..][k] < b[1..][k];
          assert a[..k + 1] == [a[0]] + a[1..][..k] && b[..k + 1] == [b[0]] + b[1..][..k];
          assert a[k + 1] < b[k + 1];
        }
      }
    }
  }

  /** The job to be claimed: waiting, first in its queue, and no earlier queue has any. */
  ghost predicate Chosen(s: Store, queues: seq<string>, now: int, id: string) {
    && id in s.jobs && Waiting(s, id, s.jobs[id].spec.queue, now)
    && (forall x :: Waiting(s, x, s.jobs[id].spec.queue, now) ==> GoesBefore(s.jobs[id], s.jobs[x]))
    && exists i :: 0 <= i < |queues| && queues[i] == s.jobs[id].spec.queue &&
                   forall h, x :: 0 <= h < i ==> !Waiting(s, x, queues[h], now)
  }

  lemma WaitingIsLive(s: Store, id: string, queue: string, now: int)
    requires Consistent(s) && Waiting(s, id, queue, now)
    ensures Live(s, ReadyKeyOf(s.jobs[id]), now) && ReadyKeyOf(s.jobs[id]).queue == queue
  {}

  lemma NoneDueIsNoneWaiting(s: Store, queue: string, now: int)
    requires Consistent(s) && NoneDue(s, queue, now)
    ensures forall x :: !Waiting(s, x, queue, now)
  {
    forall x | Waiting(s, x, queue, now) ensures false { WaitingIsLive(s, x, queue, now); }
  }

  /** The order of the index keys is the order the store promises. */
  lemma KeyOrderIsClaimOrder(c: Job, j: Job)
    requires KeyLeq(ReadyKeyOf(c), ReadyKeyOf(j))
    ensures GoesBefore(c, j)
  {
    if c.createdAt == j.createdAt && StringLeq(c.id, j.id) { StringLeqIsComesFirst(c.id, j.id); }
  }

  lemma FirstDueIsChosen(s: Store, queues: seq<string>, now: int, id: string)
    requires Consistent(s) && Claimable(s, id, now) && FirstDue(s, queues, now, ReadyKeyOf(s.jobs[id]))
    ensures Chosen(s, queues, now, id)
  {
    var c := s.jobs[id];
    forall x | Waiting(s, x, c.spec.queue, now) ensures GoesBefore(c, s.jobs[x]) {
      WaitingIsLive(s, x, c.spec.queue, now);
      KeyOrderIsClaimOrder(c, s.jobs[x]);
    }
    var i :| 0 <= i < |queues| && queues[i] == c.spec.queue && forall h :: 0 <= h < i ==> NoneDue(s, queues[h], now);
    forall h, x | 0 <= h < i ensures !Waiting(s, x, queues[h], now) { NoneDueIsNoneWaiting(s, queues[h], now); }
  }

  /** What makes a record unfit for the store, fault by fault. */
  predicate Malformed(j: Job) {
    || Blank(j.id) || Blank(j.spec.kind) || j.spec.payload == Absent || Blank(j.spec.queue)
    || j.spec.maxAttempts < 0 || j.spec.timeout < 0 || j.attempt < 0
    || j.spec.backoff < 0 || j.spec.backoff > 86_400_000_000_000
    || (exists k :: k in j.spec.labels && (Blank(k) || Blank(j.spec.labels[k])))
    || (exists i :: 0 <= i < |j.spec.tags| && Blank(j.spec.tags[i]))
    || (j.updatedAt.At? && j.updatedAt.ns < j.createdAt) || (j.completedAt.At? && j.completedAt.ns < j.createdAt)
  }

  lemma MalformedExactly(j: Job)
    ensures Malformed(j) <==> !j.Valid()
  {}

  class Database {
    var jobs: map<string, Job>
    var ready: set<ReadyKey>
    var running: set<string>
    var correlate: map<string, string>
    var checkpoints: map<string, Checkpoint>

    function View(): Store
      reads this
    {
      Store(jobs, ready, running, correlate, checkpoints)
    }

    constructor ()
      ensures View() == EMPTY
    {
      jobs, ready, running, correlate, checkpoints := map[], {}, {}, map[], map[];
    }

    method CreateJob(job: Job) returns (outcome: Outcome)
      modifies this
      ensures (View(), outcome) == Create(old(View()), job)
      ensures outcome == Refused <==> Malformed(job)
      ensures outcome == Exists <==>
                && !Malformed(job)
                && (job.id in old(jobs) || (job.spec.correlateID != "" && job.spec.correlateID in old(correlate)))
      ensures outcome != Accepted ==> unchanged(this)
      ensures outcome == Accepted ==>
                && jobs == old(jobs)[job.id := job]
                && (job.spec.correlateID != "" ==> correlate == old(correlate)[job.spec.correlateID := job.id])
                && (job.spec.correlateID == "" ==> correlate == old(correlate))
                && running == old(running) && checkpoints == old(checkpoints)
    {
      MalformedExactly(job);
      if !job.Valid() { return Refused; }
      if job.id in jobs { return Exists; }
      if job.spec.correlateID != "" {
        if job.spec.correlateID in correlate { return Exists; }
        correlate := correlate[job.spec.correlateID := job.id];
      }
      jobs := jobs[job.id := job];
      if job.state == Queued {
        ready := ready + {ReadyKeyOf(job)};
      }
      return Accepted;
    }

    method UpdateJob(job: Job) returns (ok: bool)
      modifies this
      ensures ok <==> job.Valid() && job.id in old(jobs)
      ensures View() == if ok then Update(old(View()), job) else old(View())
      ensures ok <==> !Malformed(job) && job.id in old(jobs)
      ensures ok ==> jobs == old(jobs)[job.id := job] && running == old(running) && correlate == old(correlate)
    {
      MalformedExactly(job);
      if !job.Valid() || job.id !in jobs { return false; }
      var prior := jobs[job.id];
      jobs := jobs[job.id := job];
      if prior.state == Queued {
        ready := ready - {ReadyKeyOf(prior)};
      }
      if job.state == Queued {
        ready := ready + {ReadyKeyOf(job)};
      }
      return true;
    }

    /** Claim with limit 1. With consistent indexes, by the records alone: the chosen job is marked
        running, its attempt raised by one, and no other record changes; nothing is claimed only
        if nothing waits. */
    method ClaimNext(worker: string, queues: seq<string>, now: int) returns (claimed: Option<Job>)
      requires worker != ""
      modifies this`jobs, this`ready, this`running
      ensures claimed.None? ==> jobs == old(jobs) && running == old(running) && ready <= old(ready)
      ensures Consistent(old(View())) ==>
                && (claimed.None? ==> View() == old(View()))
                && (claimed.None? ==> forall i, x :: 0 <= i < |queues| ==> !Waiting(old(View()), x, queues[i], now))
                && (claimed.Some? ==> Chosen(old(View()), queues, now, claimed.value.id))
                && (claimed.Some? ==>
                      var c := old(jobs)[claimed.value.id];
                      && claimed.value == c.(state := Running, attempt := c.attempt + 1, updatedAt := At(now))
                      && jobs == old(jobs)[claimed.value.id := claimed.value])
                && (claimed.Some? ==> View() == Claim(old(View()), worker, claimed.value.id, now))
    {
      ghost var before := View();
      claimed := ClaimByIndex(worker, queues, now);
      if Consistent(before) {
        if claimed.Some? {
          FirstDueIsChosen(before, queues, now, claimed.value.id);
        } else {
          forall i, x | 0 <= i < |queues| ensures !Waiting(before, x, queues[i], now) {
            NoneDueIsNoneWaiting(before, queues[i], now);
          }
        }
      }
    }

    /** The same by the ready index. Entries whose record is gone or not queued are dropped on the
        way; with consistent indexes there are none and the effect is exactly Claim. */
    method ClaimByIndex(worker: string, queues: seq<string>, now: int) returns (claimed: Option<Job>)
      requires worker != ""
      modifies this`jobs, this`ready, this`running
      ensures claimed.None? ==> forall i :: 0 <= i < |queues| ==> NoneDue(old(View()), queues[i], now)
      ensures claimed.None? ==> jobs == old(jobs) && running == old(running) && ready <= old(ready)
      ensures claimed.None? && Consistent(old(View())) ==> View() == old(View())
      ensures claimed.Some? && Consistent(old(View())) ==>
                && Claimable(old(View()), claimed.value.id, now)
                && FirstDue(old(View()), queues, now, ReadyKeyOf(old(jobs)[claimed.value.id]))
                && View() == Claim(old(View()), worker, claimed.value.id, now)
                && claimed.value == jobs[claimed.value.id]
    {
      ghost var before := View();
      for q := 0 to |queues|
        invariant jobs == before.jobs && running == before.running && ready <= before.ready
        invariant forall k :: Live(before, k, now) ==> k in ready
        invariant Consistent(before) ==> ready == before.ready
        invariant forall h :: 0 <= h < q ==> NoneDue(before, queues[h], now)
      {
        claimed := ClaimFromQueue(worker, queues[q], now, before);
        if claimed.Some? {
          return;
        }
      }
      claimed := None;
    }

    method ClaimFromQueue(worker: string, queue: string, now: int, ghost before: Store)
      returns (claimed: Option<Job>)
      requires worker != ""
      requires jobs == before.jobs && running == before.running && ready <= before.ready
      requires correlate == before.correlate && checkpoints == before.checkpoints
      requires forall k :: Live(before, k, now) ==> k in ready
      requires Consistent(before) ==> ready == before.ready
      modifies this`jobs, this`ready, this`running
      ensures claimed.None? ==>
                && jobs == before.jobs && running == before.running && ready <= before.ready
                && (forall k :: Live(before, k, now) ==> k in ready)
                && (Consistent(before) ==> ready == before.ready)
                && NoneDue(before, queue, now)
      ensures claimed.Some? && Consistent(before) ==>
                && Claimable(before, claimed.value.id, now)
                && var key := ReadyKeyOf(before.jobs[claimed.value.id]);
                && Live(before, key, now) && key.queue == queue
                && (forall x :: Live(before, x, now) && x.queue == queue ==> KeyLeq(key, x))
                && View() == Claim(before, worker, claimed.value.id, now)
                && claimed.value == jobs[claimed.value.id]
    {
      var rest := set k | k in ready && k.queue == queue;
      while rest != {}
        invariant jobs == before.jobs && running == before.running && ready <= before.ready
        invariant rest <= ready && forall k :: k in rest ==> k.queue == queue
        invariant forall k :: Live(before, k, now) ==> k in ready
        invariant Consistent(before) ==> ready == before.ready
        invariant forall k :: Live(before, k, now) && k.queue == queue ==> k in rest
        decreases |rest|
      {
        ghost var least := LeastKeyExists(rest);
        var k :| k in rest && forall x :: x in rest ==> KeyLeq(k, x);
        rest := rest - {k};
        if k.id !in jobs || jobs[k.id].state != Queued {
          ready := ready - {k};
        } else if Due(jobs[k.id], now) {
          var j := Started(jobs[k.id], now);
          jobs := jobs[k.id := j];
          ready := ready - {k};
          running := running + {RunningKey(worker, k.id)};
          return Some(j);
        }
      }
      claimed := None;
    }

    method PutCheckpoint(cp: Checkpoint)
      modifies this`checkpoints
      ensures View() == SaveCheckpoint(old(View()), cp) && checkpoints == old(checkpoints)[cp.jobID := cp]
    {
      checkpoints := checkpoints[cp.jobID := cp];
    }

    /** The recovery pass: refuses to open on an unreadable running-index key, otherwise
        every interrupted attempt the scan reaches is failed or put back in its queue. */
    method Recover(now: int) returns (ok: bool)
      requires Consistent(View())
      modifies this
      ensures ok <==> KeysReadable(old(View()))
      ensures !ok ==> View() == old(View())
      ensures ok ==> Recovered(old(View()), View(), now) && Consistent(View())
      ensures ok ==> forall id :: id in old(jobs) && old(jobs)[id].spec.Valid() ==>
                && id in jobs
                && if old(jobs)[id].state == Running && ColonFree(id)
                   then RestartedAs(old(jobs)[id], jobs[id], id in old(checkpoints), now)
                   else jobs[id] == old(jobs)[id]
    {
      ghost var before := View();
      var found: seq<(string, string)>;
      ok, found := ScanRunning();
      if !ok {
        return;
      }
      RecoveryStart(before, found, now);
      for i := 0 to |found|
        invariant RecoveryAt(before, View(), found, i, now)
      {
        RecoveryStep(before, View(), found, i, now);
        RecoverAttempt(found[i].0, found[i].1, now);
      }
      AllRecovered(before, View(), found, now);
      forall id | id in before.jobs && before.jobs[id].spec.Valid()
        ensures id in jobs
        ensures if before.jobs[id].state == Running && ColonFree(id)
                then RestartedAs(before.jobs[id], jobs[id], id in before.checkpoints, now)
                else jobs[id] == before.jobs[id]
      {
        RecoveredRecord(before, View(), now, id);
      }
    }

    method ScanRunning() returns (ok: bool, found: seq<(string, string)>)
      ensures ok <==> KeysReadable(View())
      ensures ok ==> ScanComplete(View(), found)
    {
      found := [];
      var rest := running;
      while rest != {}
        invariant rest <= running
        invariant forall key :: key in running - rest ==> ParseRunningKey(key).Some?
        invariant forall key :: key in running - rest && ParseRunningKey(key).value.1 in jobs ==>
                    ParseRunningKey(key).value in found
        invariant forall f :: f in found ==> Attributed(View(), f)
        decreases |rest|
      {
        var key :| key in rest;
        rest := rest - {key};
        var parsed := ParseRunningKey(key);
        if parsed.None? {
          return false, [];
        }
        ParsedIdColonFree(key);
        if parsed.value.1 in jobs {
          assert Reached(View(), parsed.value.1);
          found := found + [parsed.value];
        }
      }
      ok := true;
    }

    method RecoverAttempt(worker: string, id: string, now: int)
      requires id in jobs
      modifies this
      ensures View() == RecoverOne(old(View()), worker, id, now)
    {
      var j := jobs[id];
      running := running - {RunningKey(worker, id)};
      if j.state != Running {
        return;
      }
      j := j.(state := Failed, lastError := "interrupted by restart",
              completedAt := At(now), updatedAt := At(now));
      if j.attempt < MaxAttempts(j) {
        j := j.(state := Queued, completedAt := Zero,
                nextAttemptAt := At(now + NextBackoff(j.spec, j.attempt)));
        if j.id in checkpoints {
          j := j.(resumeToken := j.id);
        }
        ready := ready + {ReadyKeyOf(j)};
      }
      jobs := jobs[id := j];
    }
  }
}
