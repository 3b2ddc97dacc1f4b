/** The submission edge: an atomic-rename file spool (ayenitd/spool.go,
    ayenitd/spoolclient.go). Every action is one file-system call, one store transaction or
    one local decision of a producer or of the ingest loop. */
module Spool {
  import opened Text
  import opened Jobs
  import opened JobStore

  datatype SpoolFile = SpoolFile(
    correlateID: string, submittedAt: int, producer: string, spec: Spec, traceID: string)

  /** File contents: the JSON text of a submission, or anything else. */
  datatype Data = Json(file: SpoolFile) | Garbage(text: string)

  /** What decoding yields: a payload encoded as `null` comes back absent. */
  function Decoded(f: SpoolFile): SpoolFile {
    if f.spec.payload.NullEncoding? then f.(spec := f.spec.(payload := Absent)) else f
  }

  predicate WellFormed(d: Data) {
    d.Json? && d.file.correlateID != "" && Decoded(d.file).spec.Valid()
  }

  /** The submission is unchanged by a trip through its JSON text. */
  predicate Survives(f: SpoolFile) {
    !f.spec.payload.NullEncoding?
  }

  predicate IsDigit(c: char) {
    '0' <= c <= '9'
  }

  predicate IsHex(c: char) {
    IsDigit(c) || 'a' <= c <= 'f'
  }

  /** The ids Submit mints: "turn-", a time in milliseconds (13 wide), "-", and 8 random bytes in hex. */
  predicate MintedID(id: string) {
    && |id| >= 5 + 13 + 1 + 16 && id[..5] == "turn-" && id[|id| - 17] == '-'
    && (forall i :: 5 <= i < |id| - 17 ==> IsDigit(id[i]) || id[i] == '-')
    && (forall i :: |id| - 16 <= i < |id| ==> IsHex(id[i]))
  }

  lemma MintedIsColonFree(id: string)
    requires MintedID(id)
    ensures ColonFree(id)
  {
    forall i | 0 <= i < |id| ensures id[i] != ':' {
      if i < 5 { assert id[i] == "turn-"[i]; }
    }
  }

  function JobID(correlateID: string): string {
    "job-" + correlateID
  }

  function Materialize(f: SpoolFile, now: int): Job {
    Job(JobID(f.correlateID), f.spec.(correlateID := f.correlateID), Queued, 0,
        now, At(now), Zero, Zero, "", "", "")
  }

  predicate IsJobFile(name: string) {
    HasSuffix(name, ".json")
  }

  // ----- states -----

  datatype Temp = Temp(data: Data, modTime: int)

  /** The ingest loop between two of its calls. */
  datatype Watcher =
    | Idle
    | Read(name: string, data: Data)      // content read, file still in pending/
    | Holding(name: string, data: Data)   // file in claimed/
    | Recorded(name: string)              // the store knows the submission
  {
    predicate Knows(n: string) {
      (Read? || Holding?) && name == n
    }
    predicate On(n: string) {
      !Idle? && name == n
    }
  }

  datatype Receipt = Receipt(name: string, file: SpoolFile)

  datatype Dirs = Dirs(
    temps: map<string, Temp>,          // pending/.{name}.tmp, by final name
    pending: map<string, Data>,
    claimed: map<string, Data>,
    failed: map<string, Data>,
    submits: map<string, SpoolFile>,   // Submit calls in flight, by file name
    watcher: Watcher,
    accepted: map<string, Receipt>,    // correlate id -> what Submit reported success for
    minted: set<string>,               // file names Submit generated
    ids: set<string>,                  // correlate ids Submit generated
    foreign: set<string>)              // correlate ids in files other producers dropped

  const NO_FILES := Dirs(map[], map[], map[], map[], map[], Idle, map[], {}, {}, {})

  // ----- producers -----

  datatype Produce =
    | SubmitOpen(name: string, file: SpoolFile, now: int)
    | SubmitWrite(name: string)
    | SubmitRename(name: string)
    | SubmitAbort(name: string)          // an error: the temp file is removed
    | SubmitCrash(name: string)          // the submitter dies: the temp file stays
    | Foreign(name: string, data: Data)  // another producer drops a file

  ghost predicate ProduceEnabled(d: Dirs, p: Produce) {
    match p
    case SubmitOpen(name, file, _) =>
      && file.spec.Valid() && MintedID(file.correlateID) && file.spec.correlateID == file.correlateID
      && file.correlateID !in d.ids && file.correlateID !in d.foreign
      && IsJobFile(name) && name !in d.minted && name !in d.pending && name !in d.claimed
      && name !in d.failed && !d.watcher.On(name)
    case SubmitWrite(name) => name in d.submits && name in d.temps
    case SubmitRename(name) =>
      name in d.submits && name in d.temps && d.temps[name].data == Json(d.submits[name])
    case SubmitAbort(name) => name in d.submits
    case SubmitCrash(name) => name in d.submits
    case Foreign(name, _) => name !in d.minted
  }

  ghost function ApplyProduce(d: Dirs, p: Produce): Dirs
    requires ProduceEnabled(d, p)
  {
    match p
    case SubmitOpen(name, file, now) =>
      d.(temps := d.temps[name := Temp(Garbage(""), now)], submits := d.submits[name := file],
         minted := d.minted + {name}, ids := d.ids + {file.correlateID})
    case SubmitWrite(name) =>
      d.(temps := d.temps[name := d.temps[name].(data := Json(d.submits[name]))])
    case SubmitRename(name) =>
      var file := d.submits[name];
      d.(temps := d.temps - {name}, submits := d.submits - {name},
         pending := d.pending[name := d.temps[name].data],
         accepted := d.accepted[file.correlateID := Receipt(name, file)])
    case SubmitAbort(name) => d.(temps := d.temps - {name}, submits := d.submits - {name})
    case SubmitCrash(name) => d.(submits := d.submits - {name})
    case Foreign(name, data) =>
      d.(pending := d.pending[name := data],
         foreign := if data.Json? then d.foreign + {data.file.correlateID} else d.foreign)
  }

  // ----- the ingest loop -----

  datatype Watch =
    | Sweep(name: string, now: int)
    | ReadPending(name: string)
    | ReadClaimed(name: string)          // recovery leg: a file already in claimed/
    | Rename(ok: bool)
    | Reject(moved: bool)
    | Remove(ok: bool)

  ghost predicate WatchEnabled(d: Dirs, w: Watch) {
    match w
    case Sweep(name, now) => d.watcher.Idle? && name in d.temps && d.temps[name].modTime <= now - HOUR
    case ReadPending(name) => d.watcher.Idle? && IsJobFile(name) && name in d.pending
    case ReadClaimed(name) => d.watcher.Idle? && IsJobFile(name) && name in d.claimed
    case Rename(ok) => d.watcher.Read? && (ok ==> d.watcher.name in d.pending)
    case Reject(moved) =>
      d.watcher.Holding? && !WellFormed(d.watcher.data) && (moved ==> d.watcher.name in d.claimed)
    case Remove(_) => d.watcher.Recorded?
  }

  ghost function ApplyWatch(d: Dirs, w: Watch): Dirs
    requires WatchEnabled(d, w)
  {
    match w
    case Sweep(name, _) =>
      d.(temps := d.temps - {name}, failed := d.failed[name + ".tmp" := d.temps[name].data])
    case ReadPending(name) => d.(watcher := Read(name, d.pending[name]))
    case ReadClaimed(name) => d.(watcher := Holding(name, d.claimed[name]))
    case Rename(ok) =>
      if !ok then d.(watcher := Idle)
      else
        var name := d.watcher.name;
        d.(pending := d.pending - {name}, claimed := d.claimed[name := d.pending[name]],
           watcher := Holding(name, d.watcher.data))
    case Reject(moved) =>
      if !moved then d.(watcher := Idle)
      else
        var name := d.watcher.name;
        d.(claimed := d.claimed - {name}, failed := d.failed[name := d.claimed[name]], watcher := Idle)
    case Remove(ok) =>
      d.(watcher := Idle, claimed := if ok then d.claimed - {d.watcher.name} else d.claimed)
  }

  /** The store call of the ingest loop. `known`: the store answered nil or ErrExists. A call
      that reports another error may still have committed. */
  datatype Ingest = Ingest(known: bool, committed: bool, now: int)

  ghost function IngestedStore(d: Dirs, store: Store, i: Ingest): Store
    requires d.watcher.Holding? && d.watcher.data.Json?
  {
    if i.committed then Create(store, Materialize(Decoded(d.watcher.data.file), i.now)).0 else store
  }

  ghost predicate IngestEnabled(d: Dirs, store: Store, i: Ingest) {
    && d.watcher.Holding? && WellFormed(d.watcher.data)
    && (i.known ==>
          i.committed && Create(store, Materialize(Decoded(d.watcher.data.file), i.now)).1 != Refused)
  }

  ghost function ApplyIngest(d: Dirs, i: Ingest): Dirs
    requires d.watcher.Holding?
  {
    d.(watcher := if i.known then Recorded(d.watcher.name) else Idle)
  }

  // ----- what every action keeps -----

  /** A submission in flight is visible nowhere but in its temp file. */
  ghost predicate SubmitOk(d: Dirs, name: string)
    requires name in d.submits
  {
    var file := d.submits[name];
    && name in d.minted && IsJobFile(name)
    && name !in d.pending && name !in d.claimed && name !in d.failed && !d.watcher.On(name)
    && file.spec.Valid() && file.correlateID != "" && file.spec.correlateID == file.correlateID
    && file.correlateID in d.ids && file.correlateID !in d.accepted
  }

  ghost predicate SubmitsOk(d: Dirs) {
    && (forall name :: name in d.submits ==> SubmitOk(d, name))
    && DistinctIds(d.submits)
    && d.accepted.Keys <= d.ids
  }

  ghost predicate DistinctIds(submits: map<string, SpoolFile>) {
    forall m, n :: m in submits && n in submits && submits[m].correlateID == submits[n].correlateID ==> m == n
  }

  /** Where an accepted submission is, and that nothing has altered it; `known` are the
      correlate ids in the store. */
  ghost predicate ReceiptOk(d: Dirs, known: set<string>, c: string)
    requires c in d.accepted
  {
    var r := d.accepted[c];
    && r.file.correlateID == c && c != "" && r.file.spec.correlateID == c && r.file.spec.Valid()
    && r.name in d.minted && IsJobFile(r.name) && r.name !in d.submits
    && (r.name in d.pending ==> d.pending[r.name] == Json(r.file))
    && (r.name in d.claimed ==> d.claimed[r.name] == Json(r.file))
    && (d.watcher.Knows(r.name) ==> d.watcher.data == Json(r.file))
    && (Survives(r.file) ==>
          && (r.name in d.pending || r.name in d.claimed || c in known)
          && r.name !in d.failed
          && (d.watcher == Recorded(r.name) ==> c in known))
  }

  /** A readable file comes from an accepted submission or from another producer. */
  ghost predicate Sourced(d: Dirs, data: Data) {
    data.Json? && data.file.correlateID !in d.foreign ==>
      data.file.correlateID in d.accepted && d.accepted[data.file.correlateID].file == data.file
  }

  ghost predicate FilesSourced(d: Dirs) {
    && (forall n :: n in d.pending ==> Sourced(d, d.pending[n]))
    && (forall n :: n in d.claimed ==> Sourced(d, d.claimed[n]))
    && (d.watcher.Read? || d.watcher.Holding? ==> Sourced(d, d.watcher.data))
  }

  /** So does every stored job: its spec is the one submitted. */
  ghost predicate JobSourced(d: Dirs, j: Job) {
    j.spec.correlateID !in d.foreign ==>
      j.spec.correlateID in d.accepted && d.accepted[j.spec.correlateID].file.spec == j.spec
  }

  ghost predicate SpoolInv(d: Dirs, store: Store) {
    && SubmitsOk(d)
    && (forall c :: c in d.accepted ==> ReceiptOk(d, store.correlate.Keys, c))
    && FilesSourced(d)
    && (forall id :: id in store.jobs ==> JobSourced(d, store.jobs[id]))
  }

  lemma DebrisIsNoJobFile(name: string, other: string)
    requires IsJobFile(other)
    ensures name + ".tmp" != other
  {
    assert (name + ".tmp")[|name| + 3] == 'p';
    assert other[|other| - 1] == ".json"[4];
  }

  lemma ProduceKeepsSubmits(d: Dirs, p: Produce)
    requires SubmitsOk(d) && ProduceEnabled(d, p)
    ensures SubmitsOk(ApplyProduce(d, p))
  {
    var t := ApplyProduce(d, p);
    forall n | n in t.submits ensures SubmitOk(t, n) {
      ProduceKeepsSubmit(d, p, n);
    }
  }

  lemma ProduceKeepsSubmit(d: Dirs, p: Produce, n: string)
    requires SubmitsOk(d) && ProduceEnabled(d, p) && n in ApplyProduce(d, p).submits
    ensures SubmitOk(ApplyProduce(d, p), n)
  {
    if n in d.submits { assert SubmitOk(d, n); }
  }

  /** A receipt is never taken back or altered by another submission. */
  lemma ProduceKeepsReceipt(d: Dirs, p: Produce, c: string)
    requires SubmitsOk(d) && ProduceEnabled(d, p) && c in d.accepted
    ensures c in ApplyProduce(d, p).accepted && ApplyProduce(d, p).accepted[c] == d.accepted[c]
  {
    if p.SubmitRename? { assert SubmitOk(d, p.name); }
  }

  lemma ProduceKeepsReceipts(d: Dirs, known: set<string>, p: Produce, c: string)
    requires SubmitsOk(d) && ProduceEnabled(d, p) && c in ApplyProduce(d, p).accepted
    requires c in d.accepted ==> ReceiptOk(d, known, c)
    ensures ReceiptOk(ApplyProduce(d, p), known, c)
  {
    if p.SubmitRename? { assert SubmitOk(d, p.name); }
  }

  lemma ProduceKeepsSources(d: Dirs, p: Produce)
    requires SubmitsOk(d) && FilesSourced(d) && ProduceEnabled(d, p)
    ensures FilesSourced(ApplyProduce(d, p))
    ensures forall j :: JobSourced(d, j) ==> JobSourced(ApplyProduce(d, p), j)
  {
    var t := ApplyProduce(d, p);
    ProduceGrows(d, p);
    forall n | n in t.pending ensures Sourced(t, t.pending[n]) {
      if p.SubmitRename? && n == p.name { assert SubmitOk(d, n); }
    }
  }

  /** Receipts and foreign ids are only added. */
  lemma ProduceGrows(d: Dirs, p: Produce)
    requires SubmitsOk(d) && ProduceEnabled(d, p)
    ensures var t := ApplyProduce(d, p);
            && d.foreign <= t.foreign && d.accepted.Keys <= t.accepted.Keys
            && (forall c :: c in d.accepted ==> t.accepted[c] == d.accepted[c])
            && t.claimed == d.claimed && t.watcher == d.watcher
  {
    if p.SubmitRename? { assert SubmitOk(d, p.name); }
  }

  lemma ProducePreserves(d: Dirs, store: Store, p: Produce)
    requires SpoolInv(d, store) && ProduceEnabled(d, p)
    ensures SpoolInv(ApplyProduce(d, p), store)
  {
    ProduceKeepsSubmits(d, p);
    ProduceKeepsSources(d, p);
    forall c | c in ApplyProduce(d, p).accepted
      ensures ReceiptOk(ApplyProduce(d, p), store.correlate.Keys, c)
    {
      ProduceKeepsReceipts(d, store.correlate.Keys, p, c);
    }
  }

  /** Job ids are derived from correlate ids. */
  ghost predicate Named(store: Store) {
    && Consistent(store)
    && forall id :: id in store.jobs ==>
         id == JobID(store.jobs[id].spec.correlateID) && store.jobs[id].spec.correlateID != ""
  }

  /** Creating the job of a well-formed file never fails validation and leaves its correlate
      id known, whether or not it was known before. */
  lemma MaterializedIsKnown(store: Store, f: SpoolFile, now: int)
    requires Named(store) && f.correlateID != "" && f.spec.Valid()
    ensures Create(store, Materialize(f, now)).1 != Refused
    ensures f.correlateID in Create(store, Materialize(f, now)).0.correlate
    ensures store.correlate.Keys <= Create(store, Materialize(f, now)).0.correlate.Keys
  {
    var job := Materialize(f, now);
    assert job.id[0] == 'j';
    if job.id in store.jobs {
      var c := store.jobs[job.id].spec.correlateID;
      assert JobID(c)[4..] == c && job.id[4..] == f.correlateID;
    }
  }

  lemma WatchKeepsSubmit(d: Dirs, w: Watch, n: string)
    requires n in d.submits && SubmitOk(d, n) && WatchEnabled(d, w)
    ensures n in ApplyWatch(d, w).submits && SubmitOk(ApplyWatch(d, w), n)
  {
    if w.Sweep? { DebrisIsNoJobFile(w.name, n); }
  }

  lemma WatchFrame(d: Dirs, w: Watch)
    requires WatchEnabled(d, w)
    ensures var t := ApplyWatch(d, w);
            t.submits == d.submits && t.accepted == d.accepted && t.ids == d.ids && t.foreign == d.foreign
  {}

  lemma WatchKeepsReceipt(d: Dirs, known: set<string>, w: Watch, c: string)
    requires WatchEnabled(d, w) && c in d.accepted && ReceiptOk(d, known, c)
    ensures c in ApplyWatch(d, w).accepted && ReceiptOk(ApplyWatch(d, w), known, c)
  {
    if w.Sweep? { DebrisIsNoJobFile(w.name, d.accepted[c].name); }
  }

  /** A temp file less than an hour old is left alone by the ingest loop, so that its submission
      can still be written and renamed; only its submitter removes it. */
  lemma YoungTempIsKept(d: Dirs, w: Watch, name: string)
    requires WatchEnabled(d, w) && name in d.temps
    requires w.Sweep? ==> w.now - d.temps[name].modTime < 3_600_000_000_000
    ensures name in ApplyWatch(d, w).temps && ApplyWatch(d, w).temps[name] == d.temps[name]
    ensures ProduceEnabled(d, SubmitRename(name)) ==> ProduceEnabled(ApplyWatch(d, w), SubmitRename(name))
  {}

  lemma WatchKeepsSources(d: Dirs, w: Watch)
    requires FilesSourced(d) && WatchEnabled(d, w)
    ensures FilesSourced(ApplyWatch(d, w))
  {}

  lemma WatchPreserves(d: Dirs, store: Store, w: Watch)
    requires SpoolInv(d, store) && WatchEnabled(d, w)
    ensures SpoolInv(ApplyWatch(d, w), store)
  {
    var t := ApplyWatch(d, w);
    WatchFrame(d, w);
    WatchKeepsSources(d, w);
    forall n | n in d.submits ensures SubmitOk(t, n) {
      WatchKeepsSubmit(d, w, n);
    }
    forall c | c in d.accepted ensures ReceiptOk(t, store.correlate.Keys, c) {
      WatchKeepsReceipt(d, store.correlate.Keys, w, c);
    }
  }

  lemma IngestKeepsReceipt(d: Dirs, store: Store, i: Ingest, c: string)
    requires IngestEnabled(d, store, i) && Named(store)
    requires c in d.accepted && ReceiptOk(d, store.correlate.Keys, c)
    ensures ReceiptOk(ApplyIngest(d, i), IngestedStore(d, store, i).correlate.Keys, c)
  {
    MaterializedIsKnown(store, Decoded(d.watcher.data.file), i.now);
  }

  lemma IngestedIsSourced(d: Dirs, store: Store, now: int)
    requires SpoolInv(d, store) && d.watcher.Holding? && WellFormed(d.watcher.data)
    ensures JobSourced(d, Materialize(Decoded(d.watcher.data.file), now))
  {
    var c := d.watcher.data.file.correlateID;
    if c in d.accepted { assert ReceiptOk(d, store.correlate.Keys, c); }
  }

  lemma IngestPreserves(d: Dirs, store: Store, i: Ingest)
    requires SpoolInv(d, store) && Named(store) && IngestEnabled(d, store, i)
    ensures SpoolInv(ApplyIngest(d, i), IngestedStore(d, store, i))
  {
    var t, next := ApplyIngest(d, i), IngestedStore(d, store, i);
    forall c | c in t.accepted ensures ReceiptOk(t, next.correlate.Keys, c) {
      IngestKeepsReceipt(d, store, i, c);
    }
    IngestKeepsSubmits(d, i);
    IngestKeepsSources(d, store, i);
  }

  lemma IngestKeepsSubmits(d: Dirs, i: Ingest)
    requires SubmitsOk(d) && d.watcher.Holding?
    ensures SubmitsOk(ApplyIngest(d, i))
  {
    var t := ApplyIngest(d, i);
    forall n | n in t.submits ensures SubmitOk(t, n) { assert SubmitOk(d, n); }
  }

  lemma IngestKeepsSources(d: Dirs, store: Store, i: Ingest)
    requires SpoolInv(d, store) && IngestEnabled(d, store, i)
    ensures FilesSourced(ApplyIngest(d, i))
    ensures var t, jobs := ApplyIngest(d, i), IngestedStore(d, store, i).jobs;
            forall id :: id in jobs ==> JobSourced(t, jobs[id])
  {
    IngestedIsSourced(d, store, i.now);
  }

  /** Ingesting a file never alters a record already stored. */
  lemma IngestNeverRewrites(d: Dirs, store: Store, i: Ingest, id: string)
    requires IngestEnabled(d, store, i) && id in store.jobs
    ensures id in IngestedStore(d, store, i).jobs
    ensures IngestedStore(d, store, i).jobs[id] == store.jobs[id]
  {}

  /** What ingest makes of a file whose correlate id is new: a job derived from that id, as
      submitted but for that id, queued, never attempted and due at once; everything else in the
      store but its indexes is as it was. */
  lemma IngestCreates(d: Dirs, store: Store, i: Ingest)
    requires IngestEnabled(d, store, i) && i.known && Named(store)
    requires d.watcher.data.file.correlateID !in store.correlate
    ensures var c, spec := d.watcher.data.file.correlateID, Decoded(d.watcher.data.file).spec;
            var job := Job("job-" + c, spec.(correlateID := c), Queued, 0, i.now, At(i.now), Zero, Zero, "", "", "");
            && IngestedStore(d, store, i).jobs == store.jobs["job-" + c := job]
            && IngestedStore(d, store, i).correlate == store.correlate[c := "job-" + c]
            && IngestedStore(d, store, i).checkpoints == store.checkpoints
  {
    var c := d.watcher.data.file.correlateID;
    MaterializedIsKnown(store, Decoded(d.watcher.data.file), i.now);
    assert ("job-" + c)[4..] == c;
    assert forall x :: JobID(x)[4..] == x;
  }

  lemma IngestNames(d: Dirs, store: Store, i: Ingest)
    requires IngestEnabled(d, store, i) && Named(store)
    ensures Named(IngestedStore(d, store, i))
  {
    if i.committed {
      CreateConsistent(store, Materialize(Decoded(d.watcher.data.file), i.now));
    }
  }
}
