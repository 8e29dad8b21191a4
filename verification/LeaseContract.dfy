/** The lease of a 24-hour fixture, the receipts that bind it and the checks of the
    resident timing contract. Instants are UTC milliseconds. */
module LeaseContract {
  import opened Wrappers

  const HOUR: int := 3600000
  const DAY: int := 24 * HOUR
  const INITIAL: int := 4 * HOUR
  const MAX: int := 32 * HOUR
  const MAX_SAFE_INTEGER: int := 9007199254740991
  const MAX_PID: int := 0xffffffff

  /** `wellFormed` stands for the regular expressions on the identity strings. */
  datatype Identity = Identity(
    candidateSha: string, runId: string, runAttempt: string, nonce: string, vmResourceId: string,
    vmId: string, taskName: string, nodeSha256: string, keeperSha256: string, wellFormed: bool)

  datatype Phase = Preparing | ResidentOwned

  datatype Lease = Lease(identity: Identity, phase: Phase, createdAt: int, expiresAt: int, hardExpiresAt: int)

  predicate VerifyLease(l: Lease) {
    && l.identity.wellFormed
    && l.hardExpiresAt == l.createdAt + MAX
    && l.expiresAt == l.createdAt + (if l.phase.Preparing? then INITIAL else MAX)
  }

  function CreateLease(owner: Identity, createdAt: int): (r: Result<Lease, string>)
    ensures r.Ok? <==> owner.wellFormed
    ensures r.Ok? ==> VerifyLease(r.value) && r.value.phase.Preparing?
                      && r.value.identity == owner && r.value.createdAt == createdAt
                      && r.value.expiresAt - createdAt == 14400000 && r.value.hardExpiresAt - createdAt == 115200000
  {
    var lease := Lease(owner, Preparing, createdAt, createdAt + INITIAL, createdAt + MAX);
    if VerifyLease(lease) then Ok(lease) else Err("identity")
  }

  /** A lease has one of two lengths from its creation, and ends at its hard expiry, 32 hours
      after it, exactly in the owned phase. */
  lemma LeaseExactlyWhen(l: Lease)
    ensures VerifyLease(l) <==>
              && l.identity.wellFormed && l.hardExpiresAt - l.createdAt == 115200000
              && l.expiresAt - l.createdAt in {14400000, 115200000}
              && (l.expiresAt == l.hardExpiresAt <==> l.phase.ResidentOwned?)
  {
  }

  // ----- prepared receipt -----

  datatype Counts = Counts(before: int, installed: int, deferred: int)

  datatype Preflight = Preflight(createdAt: int, completedAt: int, cacheUpdatedAt: int, templateCacheUpdatedAt: int)

  datatype Material = Material(enrollmentId: string, jobId: string, requestId: string, fingerprint: string, spki: string)

  datatype Validation = Validation(material: Material, journalUpdatedAt: int, deadlineAt: int)

  datatype Predecessor = Predecessor(material: Material, notAfter: int)

  /** `digest` is the SHA-256 of the encoded receipt; `wellFormed` stands for the key
      lists and the formats of hashes, identifiers and names. */
  datatype Prepared = Prepared(
    lease: Lease, preparedAt: int, bootTime: int, confirmedAt: int, apiNotAfter: int, counts: Counts,
    preflight: Preflight, validation: Validation, predecessor: Predecessor, digest: string, wellFormed: bool)

  predicate ValidCount(n: int) {
    0 <= n <= 2048
  }

  predicate VerifyCounts(c: Counts) {
    && ValidCount(c.before) && ValidCount(c.installed) && ValidCount(c.deferred)
    && c.installed == c.before + 1
    && c.deferred == c.installed + 1
  }

  predicate CacheWithin(at: int, p: Preflight) {
    p.createdAt - 5000 <= at <= p.completedAt + 5000
  }

  predicate Distinct(a: Material, b: Material) {
    && a.enrollmentId != b.enrollmentId && a.jobId != b.jobId && a.requestId != b.requestId
    && a.fingerprint != b.fingerprint && a.spki != b.spki
  }

  predicate Within5000(n: int) {
    -5000 <= n <= 5000
  }

  predicate VerifyPrepared(p: Prepared) {
    && p.wellFormed
    && VerifyLease(p.lease) && p.lease.phase.Preparing?
    && p.lease.createdAt <= p.preparedAt < p.lease.expiresAt
    && p.lease.createdAt <= p.confirmedAt <= p.preparedAt
    && p.bootTime <= p.preparedAt
    && p.apiNotAfter > p.lease.hardExpiresAt + HOUR
    && VerifyCounts(p.counts)
    && p.confirmedAt <= p.preflight.createdAt <= p.preflight.completedAt <= p.preparedAt
    && CacheWithin(p.preflight.cacheUpdatedAt, p.preflight)
    && CacheWithin(p.preflight.templateCacheUpdatedAt, p.preflight)
    && p.lease.createdAt <= p.validation.journalUpdatedAt <= p.preparedAt
    && Within5000(p.validation.deadlineAt - p.validation.journalUpdatedAt - DAY)
    && p.predecessor.notAfter > p.validation.deadlineAt + HOUR
    && Distinct(p.predecessor.material, p.validation.material)
  }

  /** An accepted receipt lays its instants on one line inside the initial lease; the default
      of 24 hours separates journal and deadline; every material is new; and the request
      counts are three consecutive ones of at most 2048. */
  lemma PreparedExactlyWhen(p: Prepared)
    ensures VerifyPrepared(p) <==>
              && p.wellFormed && VerifyLease(p.lease) && p.lease.phase.Preparing?
              && p.lease.createdAt <= p.confirmedAt <= p.preflight.createdAt <= p.preflight.completedAt
                 <= p.preparedAt < p.lease.createdAt + 14400000
              && p.lease.createdAt <= p.validation.journalUpdatedAt <= p.preparedAt && p.bootTime <= p.preparedAt
              && (forall at | at in [p.preflight.cacheUpdatedAt, p.preflight.templateCacheUpdatedAt] ::
                    p.preflight.createdAt <= at + 5000 && at <= p.preflight.completedAt + 5000)
              && 86395000 <= p.validation.deadlineAt - p.validation.journalUpdatedAt <= 86405000
              && p.apiNotAfter > p.lease.createdAt + 115200000 + 3600000
              && p.predecessor.notAfter > p.validation.deadlineAt + 3600000
              && 0 <= p.counts.before <= 2046 && p.counts == Counts(p.counts.before, p.counts.before + 1, p.counts.before + 2)
              && (var a, b := p.predecessor.material, p.validation.material;
                  a.enrollmentId != b.enrollmentId && a.jobId != b.jobId && a.requestId != b.requestId
                  && a.fingerprint != b.fingerprint && a.spki != b.spki)
  {
    var caches := [p.preflight.cacheUpdatedAt, p.preflight.templateCacheUpdatedAt];
    assert caches[0] in caches && caches[1] in caches;
  }

  // ----- resident timing receipt -----

  /** What ties a receipt to its prepared run. */
  datatype Binding = Binding(
    candidateSha: string, nonce: string, vmId: string, preparedSha256: string,
    processId: int, processCreatedAt: int, bootTime: int)

  datatype Timing = Timing(
    binding: Binding, startedAt: int, finishedAt: int, monotonicElapsedMs: int,
    preDeadlineObservedAt: Option<int>, keptObservationCount: int, maximumObservationGapMs: int)

  predicate VerifyBinding(b: Binding, startedAt: int, p: Prepared) {
    && b.candidateSha == p.lease.identity.candidateSha
    && b.nonce == p.lease.identity.nonce
    && b.vmId == p.lease.identity.vmId
    && b.preparedSha256 == p.digest
    && 0 < b.processId <= MAX_PID
    && b.bootTime == p.bootTime
    && b.bootTime <= b.processCreatedAt <= startedAt
    && b.processCreatedAt >= p.preparedAt
  }

  predicate VerifyTiming(v: Timing, p: Prepared) {
    && VerifyPrepared(p)
    && VerifyBinding(v.binding, v.startedAt, p)
    && 0 <= v.startedAt - p.preparedAt <= 600000
    && v.startedAt < p.validation.deadlineAt - 60000
    && DAY <= v.monotonicElapsedMs <= DAY + HOUR
    && Within5000(v.finishedAt - v.startedAt - v.monotonicElapsedMs)
    && v.finishedAt < p.lease.hardExpiresAt
    && v.preDeadlineObservedAt.Some?
    && v.startedAt + 23 * HOUR <= v.preDeadlineObservedAt.value < p.validation.deadlineAt - 60000
    && 24 <= v.keptObservationCount <= 26
    && 0 < v.maximumObservationGapMs <= HOUR + 300000
    && v.finishedAt > p.preflight.createdAt + DAY
    && v.finishedAt > p.preflight.cacheUpdatedAt + DAY
    && v.finishedAt > p.preflight.templateCacheUpdatedAt + DAY
    && v.finishedAt > p.validation.deadlineAt
  }

  /** The timing part of the closed public proof. */
  predicate ShapeTiming(v: Timing, originalCreatedAt: int, deadlineAt: int) {
    && 0 < v.binding.processId <= MAX_PID
    && v.binding.bootTime <= v.binding.processCreatedAt <= v.startedAt
    && v.startedAt >= originalCreatedAt && v.finishedAt < originalCreatedAt + MAX
    && DAY <= v.monotonicElapsedMs <= DAY + HOUR
    && Within5000(v.finishedAt - v.startedAt - v.monotonicElapsedMs)
    && v.finishedAt > deadlineAt
    && v.preDeadlineObservedAt.Some?
    && v.startedAt + 23 * HOUR <= v.preDeadlineObservedAt.value < deadlineAt - 60000
    && 24 <= v.keptObservationCount <= 26
    && 0 < v.maximumObservationGapMs <= HOUR + 300000
  }

  /** The resident contract is the stronger of the two checks of the same timing facts. */
  lemma ContractImpliesShape(v: Timing, p: Prepared)
    requires VerifyTiming(v, p)
    ensures ShapeTiming(v, p.lease.createdAt, p.validation.deadlineAt)
  {
  }

  /** The contract is the shape together with what only the prepared receipt can decide. */
  lemma ContractExactlyWhen(v: Timing, p: Prepared)
    ensures VerifyTiming(v, p) <==>
              && ShapeTiming(v, p.lease.createdAt, p.validation.deadlineAt)
              && VerifyPrepared(p)
              && v.binding.candidateSha == p.lease.identity.candidateSha && v.binding.nonce == p.lease.identity.nonce
              && v.binding.vmId == p.lease.identity.vmId && v.binding.preparedSha256 == p.digest
              && v.binding.bootTime == p.bootTime && p.preparedAt <= v.binding.processCreatedAt
              && p.preparedAt <= v.startedAt <= p.preparedAt + 600000
              && (forall at | at in [p.preflight.createdAt, p.preflight.cacheUpdatedAt, p.preflight.templateCacheUpdatedAt] ::
                    v.finishedAt - at > 86400000)
  {
    var instants := [p.preflight.createdAt, p.preflight.cacheUpdatedAt, p.preflight.templateCacheUpdatedAt];
    assert instants[0] in instants && instants[1] in instants && instants[2] in instants;
  }

  /** The shape, as intervals in milliseconds. */
  lemma ShapeExactlyWhen(v: Timing, originalCreatedAt: int, deadlineAt: int)
    ensures ShapeTiming(v, originalCreatedAt, deadlineAt) <==>
              && 1 <= v.binding.processId <= 4294967295
              && v.binding.bootTime <= v.binding.processCreatedAt <= v.startedAt
              && originalCreatedAt <= v.startedAt && deadlineAt < v.finishedAt < originalCreatedAt + 115200000
              && 86400000 <= v.monotonicElapsedMs <= 90000000
              && v.monotonicElapsedMs - 5000 <= v.finishedAt - v.startedAt <= v.monotonicElapsedMs + 5000
              && v.preDeadlineObservedAt.Some?
              && v.startedAt + 82800000 <= v.preDeadlineObservedAt.value < deadlineAt - 60000
              && v.keptObservationCount in {24, 25, 26} && 1 <= v.maximumObservationGapMs <= 3900000
  {
  }

  /** Any accepted receipt bounds every instant of the campaign inside the hard lease, and
      the journalled deadline lies between the last early observation and the end. */
  lemma AcceptedTimingOrder(v: Timing, p: Prepared)
    requires VerifyTiming(v, p)
    ensures p.lease.createdAt <= p.preparedAt <= v.startedAt < v.preDeadlineObservedAt.value
         < p.validation.deadlineAt < v.finishedAt < p.lease.hardExpiresAt < p.apiNotAfter
    ensures v.finishedAt - v.startedAt >= DAY - 5000
    ensures v.finishedAt <= p.preparedAt + 600000 + DAY + HOUR + 5000
    ensures p.validation.journalUpdatedAt >= v.startedAt - HOUR + 60000 - 5000
  {
  }
}
