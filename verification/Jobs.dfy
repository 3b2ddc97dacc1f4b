/** Durable job records, their validity rules and the retry delay
    (jobs/job.go, jobs/handler.go). Durations and instants are nanoseconds. */
module Jobs {
  import opened Text

  const SECOND := 1_000_000_000
  const MINUTE := 60 * SECOND
  const HOUR := 60 * MINUTE
  const MAX_INT64 := 0x7FFF_FFFF_FFFF_FFFF
  const MIN_INT64 := -0x8000_0000_0000_0000
  const MAX_BACKOFF_BASE := 0x800_0000_0000_0000 - 1  // 2^59 - 1
  const BACKOFF_CAP := 5 * MINUTE

  datatype State = Queued | Running | Completed | Failed | Cancelled {
    predicate Terminal() {
      Completed? || Failed? || Cancelled?
    }
  }

  /** The untyped payload field: absent, a non-nil value whose JSON encoding is `null`
      (a typed nil pointer or map), or a value that survives encoding. */
  datatype Payload = Absent | NullEncoding | Value(json: string)

  datatype Spec = Spec(
    kind: string,
    payload: Payload,
    queue: string,
    priority: int,
    maxAttempts: int,
    backoff: int,
    timeout: int,
    labels: map<string, string>,
    tags: seq<string>,
    correlateID: string)
  {
    predicate Valid() {
      && !Blank(kind)
      && !payload.Absent?
      && !Blank(queue)
      && 0 <= maxAttempts
      && 0 <= backoff <= 24 * HOUR
      && 0 <= timeout
      && (forall k :: k in labels ==> !Blank(k) && !Blank(labels[k]))
      && (forall i :: 0 <= i < |tags| ==> !Blank(tags[i]))
    }
  }

  /** A `time.Time`: the zero instant or a proper one. */
  datatype Time = Zero | At(ns: int)

  datatype Job = Job(
    id: string,
    spec: Spec,
    state: State,
    attempt: int,
    createdAt: int,
    updatedAt: Time,
    completedAt: Time,
    nextAttemptAt: Time,
    lastError: string,
    resumeCheckpoint: string,
    resumeToken: string)
  {
    predicate Valid() {
      && !Blank(id)
      && spec.Valid()
      && 0 <= attempt
      && (updatedAt.At? ==> createdAt <= updatedAt.ns)
      && (completedAt.At? ==> createdAt <= completedAt.ns)
    }
  }

  /** A checkpoint whose State field is non-nil. */
  datatype Checkpoint = Checkpoint(id: string, jobID: string, token: string)

  function MaxAttempts(j: Job): (n: int)
    ensures 1 <= n
  {
    if j.spec.maxAttempts <= 0 then 1 else j.spec.maxAttempts
  }

  // ----- retry delay -----

  /** Two's-complement wrap-around of a 64-bit signed result. */
  function Wrap64(x: int): (r: int)
    ensures MIN_INT64 <= r <= MAX_INT64
    ensures MIN_INT64 <= x <= MAX_INT64 ==> r == x
  {
    (x - MIN_INT64) % 0x1_0000_0000_0000_0000 + MIN_INT64
  }

  /** `x << n` before wrap-around. */
  function Shl(x: int, n: nat): int {
    if n == 0 then x else 2 * Shl(x, n - 1)
  }

  function NextBackoff(spec: Spec, attempt: int): int {
    var base := if spec.backoff <= 0 then 30 * SECOND else spec.backoff;
    var clamped := if base > MAX_BACKOFF_BASE then MAX_BACKOFF_BASE else base;
    var n := if attempt < 1 then 1 else attempt;
    var shift := if n - 1 > 5 then 5 else n - 1;
    var d := Wrap64(Shl(clamped, shift));
    if d > BACKOFF_CAP then BACKOFF_CAP else d
  }

  /** The documented curve: the base doubled per attempt, at most 32 times the base,
      never above five minutes. */
  function DocumentedDelay(spec: Spec, attempt: int): int {
    var base := if spec.backoff <= 0 then 30 * SECOND else spec.backoff;
    var doublings := if attempt <= 1 then 0 else if attempt >= 6 then 5 else attempt - 1;
    var d := Shl(base, doublings);
    if d > BACKOFF_CAP then BACKOFF_CAP else d
  }

  lemma ShlTable(x: int)
    ensures Shl(x, 0) == x && Shl(x, 1) == 2 * x && Shl(x, 2) == 4 * x
    ensures Shl(x, 3) == 8 * x && Shl(x, 4) == 16 * x && Shl(x, 5) == 32 * x
  {
    assert Shl(x, 1) == 2 * Shl(x, 0);
    assert Shl(x, 2) == 2 * Shl(x, 1);
    assert Shl(x, 3) == 2 * Shl(x, 2);
    assert Shl(x, 4) == 2 * Shl(x, 3);
  }

  /** Which shifts leave the int64 range. */
  lemma ShiftRange(base: int, shift: nat)
    requires 1 <= base <= MAX_BACKOFF_BASE && shift <= 5
    ensures base <= Shl(base, shift) <= 32 * base
    ensures Shl(base, shift) > MAX_INT64 <==> shift == 5 && base >= 0x400_0000_0000_0000
    ensures Shl(base, shift) > MAX_INT64 ==> Wrap64(Shl(base, shift)) < 0
  {
    ShlTable(base);
  }

  /** For every backoff a 64-bit duration can hold and every attempt number, the delay is
      the documented one and positive exactly when the attempt is at most the fifth or the
      base is below 2^58 ns; beyond that the shift wraps and the delay is negative. */
  lemma BackoffExactCondition(spec: Spec, attempt: int)
    requires MIN_INT64 <= spec.backoff <= MAX_INT64
    ensures (attempt <= 5 || spec.backoff < 0x400_0000_0000_0000) <==>
            NextBackoff(spec, attempt) == DocumentedDelay(spec, attempt)
    ensures (attempt <= 5 || spec.backoff < 0x400_0000_0000_0000) <==>
            NextBackoff(spec, attempt) > 0
  {
    var base := if spec.backoff <= 0 then 30 * SECOND else spec.backoff;
    var clamped := if base > MAX_BACKOFF_BASE then MAX_BACKOFF_BASE else base;
    var shift := if attempt <= 1 then 0 else if attempt >= 6 then 5 else attempt - 1;
    ShiftRange(clamped, shift);
    ShlTable(base);
  }

  /** The clamp alone does not keep the delay from wrapping: its own largest admitted base
      yields a negative delay on the sixth attempt. */
  lemma ClampAloneOverflows(spec: Spec)
    requires spec.backoff == MAX_BACKOFF_BASE
    ensures NextBackoff(spec, 6) == -32
  {
    ShlTable(MAX_BACKOFF_BASE);
  }

  /** For every spec the validity rule accepts and every attempt number: the documented
      delay, strictly positive, at most five minutes. */
  lemma BackoffOfValidSpec(spec: Spec, attempt: int)
    requires spec.Valid()
    ensures NextBackoff(spec, attempt) == DocumentedDelay(spec, attempt)
    ensures 0 < NextBackoff(spec, attempt) <= BACKOFF_CAP
  {
    BackoffExactCondition(spec, attempt);
  }

  /** The default curve, in seconds: 30, 60, 120, 240, and 300 from the fifth attempt on. */
  lemma DefaultCurve(spec: Spec, attempt: int)
    requires spec.Valid() && spec.backoff == 0
    ensures NextBackoff(spec, attempt) ==
            1_000_000_000 * (if attempt <= 1 then 30 else if attempt == 2 then 60 else if attempt == 3 then 120
                             else if attempt == 4 then 240 else 300)
  {
    BackoffOfValidSpec(spec, attempt);
    ShlTable(30 * SECOND);
  }

  lemma {:induction false} ShlMonotone(x: int, m: nat, n: nat)
    requires 0 <= x && m <= n
    ensures 0 <= Shl(x, m) <= Shl(x, n)
    decreases n
  {
    if m < n {
      ShlMonotone(x, m, n - 1);
    } else if 0 < m {
      ShlMonotone(x, m - 1, n - 1);
    }
  }

  lemma DocumentedDelayMonotone(spec: Spec, earlier: int, later: int)
    requires earlier <= later
    ensures DocumentedDelay(spec, earlier) <= DocumentedDelay(spec, later)
  {
    var base := if spec.backoff <= 0 then 30 * SECOND else spec.backoff;
    var m := if earlier <= 1 then 0 else if earlier >= 6 then 5 else earlier - 1;
    var n := if later <= 1 then 0 else if later >= 6 then 5 else later - 1;
    ShlMonotone(base, m, n);
  }

  /** Later attempts never wait less. */
  lemma BackoffMonotone(spec: Spec, earlier: int, later: int)
    requires spec.Valid() && earlier <= later
    ensures NextBackoff(spec, earlier) <= NextBackoff(spec, later)
  {
    var e, l := NextBackoff(spec, earlier), NextBackoff(spec, later);
    assert e == DocumentedDelay(spec, earlier) by { BackoffOfValidSpec(spec, earlier); }
    assert l == DocumentedDelay(spec, later) by { BackoffOfValidSpec(spec, later); }
    DocumentedDelayMonotone(spec, earlier, later);
  }
}
