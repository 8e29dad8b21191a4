/** The campaign controller's decisions about a lease: the single extension, the handoff
    it must match, and when the owned resource group is deleted. */
module CampaignLease {
  import opened Wrappers
  import opened LeaseContract

  /** The task observation an extension rests on; `matches` stands for the identity fields,
      the flags and the fixed strings that must agree with the prepared receipt. */
  datatype Observed = Observed(
    taskXmlSha256: string, processId: int, processCreatedAt: int, bootTime: int,
    startedAt: int, finishedAt: int, monotonicElapsedMs: int, matches: bool)

  /** `ownership` stands for the infrastructure and control-plane checks. */
  datatype Original = Original(lease: Lease, prepared: Prepared, taskObserved: Observed, ownership: bool)

  /** `bound` stands for the sections that must repeat the original receipt verbatim. */
  datatype Handoff = Handoff(lease: Lease, handoffObserved: Observed, bound: bool)

  predicate VerifyObserved(o: Observed, p: Prepared) {
    && o.matches
    && o.bootTime == p.bootTime
    && 0 < o.processId <= MAX_PID
    && 0 <= o.monotonicElapsedMs < INITIAL
    && p.preparedAt <= o.startedAt <= o.finishedAt < p.lease.expiresAt
    && p.preparedAt <= o.processCreatedAt <= o.startedAt
  }

  predicate VerifyOriginal(o: Original) {
    && VerifyPrepared(o.prepared)
    && VerifyLease(o.lease) && o.lease.phase.Preparing?
    && o.lease == o.prepared.lease
    && VerifyObserved(o.taskObserved, o.prepared)
    && o.ownership
  }

  predicate SameTask(a: Observed, b: Observed) {
    a.taskXmlSha256 == b.taskXmlSha256 && a.processId == b.processId
    && a.processCreatedAt == b.processCreatedAt && a.bootTime == b.bootTime
  }

  function ExtendLease(original: Original, observed: Observed, at: int): (r: Result<Lease, string>) {
    if !VerifyOriginal(original) || !VerifyObserved(observed, original.prepared) then Err("receipt")
    else if !SameTask(observed, original.taskObserved) then Err("task")
    else if !(observed.finishedAt <= at < original.lease.expiresAt) then Err("instant")
    else
      var lease := original.lease.(phase := ResidentOwned, expiresAt := original.lease.hardExpiresAt);
      if VerifyLease(lease) then Ok(lease) else Err("lease")
  }

  predicate VerifyHandoff(h: Handoff, original: Original) {
    && VerifyOriginal(original)
    && h.bound
    && VerifyLease(h.lease) && h.lease.phase.ResidentOwned?
    && h.lease.identity == original.lease.identity
    && h.lease.createdAt == original.lease.createdAt
    && h.lease.hardExpiresAt == original.lease.hardExpiresAt
    && VerifyObserved(h.handoffObserved, original.prepared)
    && SameTask(h.handoffObserved, original.taskObserved)
  }

  /** An observation lies between the preparation and the end of the initial lease, made of
      the process that the prepared machine created after it. */
  lemma ObservedExactlyWhen(o: Observed, p: Prepared)
    requires VerifyPrepared(p)
    ensures VerifyObserved(o, p) <==>
              && o.matches && o.bootTime == p.bootTime && 1 <= o.processId <= 4294967295
              && 0 <= o.monotonicElapsedMs <= 14399999
              && p.preparedAt <= o.processCreatedAt <= o.startedAt <= o.finishedAt < p.lease.createdAt + 14400000
  {
  }

  lemma OriginalExactlyWhen(o: Original)
    ensures VerifyOriginal(o) <==>
              VerifyPrepared(o.prepared) && o.lease == o.prepared.lease && VerifyObserved(o.taskObserved, o.prepared) && o.ownership
  {
  }

  /** The handoff check admits, for an original, one lease value, and an observation of the
      same process under the same task. */
  lemma HandoffExactlyWhen(h: Handoff, original: Original)
    ensures VerifyHandoff(h, original) <==>
              && VerifyOriginal(original) && h.bound
              && h.lease == Lease(original.lease.identity, ResidentOwned, original.lease.createdAt,
                                  original.lease.createdAt + 115200000, original.lease.createdAt + 115200000)
              && VerifyObserved(h.handoffObserved, original.prepared)
              && h.handoffObserved.taskXmlSha256 == original.taskObserved.taskXmlSha256
              && h.handoffObserved.processId == original.taskObserved.processId
              && h.handoffObserved.processCreatedAt == original.taskObserved.processCreatedAt
              && h.handoffObserved.bootTime == original.taskObserved.bootTime
  {
  }

  /** The extension succeeds exactly when its guards hold, never for want of a valid
      result, and moves the expiry to the unchanged hard expiry. */
  lemma ExtensionExactlyWhen(original: Original, observed: Observed, at: int)
    ensures ExtendLease(original, observed, at).Ok?
       <==> && VerifyOriginal(original) && VerifyObserved(observed, original.prepared)
            && SameTask(observed, original.taskObserved)
            && observed.finishedAt <= at < original.lease.expiresAt
    ensures ExtendLease(original, observed, at).Ok? ==>
              var lease := ExtendLease(original, observed, at).value;
              && VerifyLease(lease)
              && lease.expiresAt == original.lease.hardExpiresAt == lease.hardExpiresAt == original.lease.createdAt + MAX
              && lease.expiresAt > original.lease.expiresAt > at
  {
  }

  /** The handoff check admits exactly one lease value for an original, and it is the one
      the extension produces. */
  lemma HandoffLeaseIsTheExtension(h: Handoff, original: Original, observed: Observed, at: int)
    requires ExtendLease(original, observed, at).Ok?
    ensures VerifyHandoff(h, original) ==> h.lease == ExtendLease(original, observed, at).value
    ensures h == Handoff(ExtendLease(original, observed, at).value, observed, true) ==> VerifyHandoff(h, original)
  {
  }

  // ----- lease histories -----

  datatype Extension = Extension(original: Original, observed: Observed, at: int)

  /** The lease after a sequence of attempted extensions; a refused attempt changes nothing. */
  function After(lease: Lease, attempts: seq<Extension>): (l: Lease)
    decreases |attempts|
  {
    if attempts == [] then lease
    else
      var e := attempts[0];
      var r := if e.original.lease == lease then ExtendLease(e.original, e.observed, e.at) else Err("lease");
      After(if r.Ok? then r.value else lease, attempts[1..])
  }

  /** How many attempts changed the lease. */
  function Changes(lease: Lease, attempts: seq<Extension>): (n: nat)
    decreases |attempts|
  {
    if attempts == [] then 0
    else
      var next := After(lease, attempts[..1]);
      (if next == lease then 0 else 1) + Changes(next, attempts[1..])
  }

  lemma OneAttempt(lease: Lease, attempts: seq<Extension>)
    requires attempts != []
    ensures After(lease, attempts) == After(After(lease, attempts[..1]), attempts[1..])
  {
    var one := attempts[..1];
    assert one[0] == attempts[0] && one[1..] == [];
    assert After(lease, one) == (
      var e := attempts[0];
      var r := if e.original.lease == lease then ExtendLease(e.original, e.observed, e.at) else Err("lease");
      if r.Ok? then r.value else lease);
  }

  lemma {:induction false} OwnedLeaseIsFinal(lease: Lease, attempts: seq<Extension>)
    requires lease.phase.ResidentOwned?
    ensures After(lease, attempts) == lease && Changes(lease, attempts) == 0
    decreases |attempts|
  {
    if attempts != [] {
      OneAttempt(lease, attempts);
      var one := attempts[..1];
      assert one[1..] == [];
      OwnedLeaseIsFinal(lease, attempts[1..]);
    }
  }

  /** Attempt `k` is the extension: all earlier ones were refused, it was made on the initial
      lease before its expiry, and it produced the final one. */
  ghost predicate ExtendedBy(first: Lease, attempts: seq<Extension>, k: nat) {
    && k < |attempts|
    && var e := attempts[k];
       && After(first, attempts[..k]) == first
       && e.original.lease == first
       && e.at < first.expiresAt
       && ExtendLease(e.original, e.observed, e.at) == Ok(After(first, attempts))
  }

  lemma ExtendedLater(first: Lease, attempts: seq<Extension>, k: nat)
    requires attempts != [] && After(first, attempts[..1]) == first && ExtendedBy(first, attempts[1..], k)
    ensures ExtendedBy(first, attempts, k + 1)
  {
    OneAttempt(first, attempts);
    OneAttempt(first, attempts[..k + 1]);
    assert attempts[..k + 1][..1] == attempts[..1];
    assert attempts[..k + 1][1..] == attempts[1..][..k];
  }

  /** Over any history the expiry is extended at most once, by an attempt made before the
      initial expiry, and never past the hard expiry that the creation fixed; the lease
      differs from the created one exactly if some attempt was that extension. */
  lemma {:induction false} ExtendedAtMostOnce(owner: Identity, createdAt: int, attempts: seq<Extension>)
    requires CreateLease(owner, createdAt).Ok?
    ensures var first := CreateLease(owner, createdAt).value;
            var last := After(first, attempts);
            && Changes(first, attempts) <= 1
            && VerifyLease(last)
            && last.createdAt == createdAt && last.identity == owner
            && last.hardExpiresAt == createdAt + MAX
            && last.expiresAt <= last.hardExpiresAt
            && (last != first <==> exists k :: ExtendedBy(first, attempts, k))
    decreases |attempts|
  {
    var first := CreateLease(owner, createdAt).value;
    if attempts != [] {
      OneAttempt(first, attempts);
      var one, rest := attempts[..1], attempts[1..];
      assert one[1..] == [];
      var next := After(first, one);
      if next == first {
        ExtendedAtMostOnce(owner, createdAt, rest);
        if After(first, rest) != first {
          var k :| ExtendedBy(first, rest, k);
          ExtendedLater(first, attempts, k);
        }
      } else {
        OwnedLeaseIsFinal(next, rest);
        assert attempts[..0] == [];
        assert ExtendedBy(first, attempts, 0);
      }
    }
  }

  // ----- creation window and deletion -----

  /** The workflow run and its prepare job, as far as the decisions look at them. */
  datatype WorkflowRun = WorkflowRun(completed: bool, succeeded: bool, createdAt: int, updatedAt: Option<int>)
  datatype Job = Job(startedAt: int, completedAt: Option<int>)

  predicate VerifyJobCreation(time: int, run: WorkflowRun, job: Job) {
    && job.startedAt - 5000 <= time < job.startedAt + INITIAL + 5000
    && time >= run.createdAt - 5000
    && (job.completedAt.Some? ==> time <= job.completedAt.value + 5000)
    && (run.completed && run.updatedAt.Some? ==> time <= run.updatedAt.value + 5000)
  }

  function Later(a: int, b: int): (t: int) {
    if a >= b then a else b
  }

  /** The creation window: from the start of run and job, less five seconds, to four hours
      after the job's start and to the ends that are known, five seconds more. */
  lemma CreationExactlyWhen(time: int, run: WorkflowRun, job: Job)
    ensures VerifyJobCreation(time, run, job) <==>
              && Later(job.startedAt, run.createdAt) - time <= 5000
              && time - job.startedAt < 14405000
              && (job.completedAt.Some? ==> time - job.completedAt.value <= 5000)
              && (run.completed && run.updatedAt.Some? ==> time - run.updatedAt.value <= 5000)
  {
  }

  datatype Reason = TerminalFailedOwner | LeaseExpiry | OrphanCleanup
  datatype Decision = Decision(delete: bool, reason: Reason)

  function CleanupDecision(original: Option<Original>, handoff: Option<Handoff>, run: WorkflowRun, job: Job, now: int)
    : (r: Result<Decision, string>)
  {
    if run.completed && !run.succeeded then Ok(Decision(true, TerminalFailedOwner))
    else if original.Some? then
      if !VerifyOriginal(original.value) then Err("original")
      else if handoff.Some? then
        if VerifyHandoff(handoff.value, original.value)
        then Ok(Decision(now >= handoff.value.lease.expiresAt, LeaseExpiry)) else Err("handoff")
      else Ok(Decision(now >= original.value.lease.expiresAt, LeaseExpiry))
    else Ok(Decision(now >= job.startedAt + MAX, OrphanCleanup))
  }

  /** The instant from which the evidence at hand orders the deletion. */
  function Threshold(original: Option<Original>, handoff: Option<Handoff>, job: Job): (t: int) {
    if original.None? then job.startedAt + MAX
    else original.value.lease.createdAt + (if handoff.Some? then MAX else INITIAL)
  }

  /** For a run that has not terminally failed the decision is a threshold on time; for
      one that has, it is always to delete, on any evidence. */
  lemma DeletionThreshold(original: Option<Original>, handoff: Option<Handoff>, run: WorkflowRun, job: Job, now: int)
    ensures run.completed && !run.succeeded ==>
              CleanupDecision(original, handoff, run, job, now) == Ok(Decision(true, TerminalFailedOwner))
    ensures !(run.completed && !run.succeeded) && CleanupDecision(original, handoff, run, job, now).Ok? ==>
              (CleanupDecision(original, handoff, run, job, now).value.delete <==> now >= Threshold(original, handoff, job))
  {
  }

  /** For a run that has not terminally failed the decision refuses exactly evidence that does
      not verify: an original, or a handoff of it; a handoff alone is not looked at. The reason
      tells which evidence decided. */
  lemma DecisionRefusedExactlyWhen(original: Option<Original>, handoff: Option<Handoff>, run: WorkflowRun, job: Job, now: int)
    requires !(run.completed && !run.succeeded)
    ensures var r := CleanupDecision(original, handoff, run, job, now);
            && (r.Err? <==> original.Some? && (!VerifyOriginal(original.value)
                                              || (handoff.Some? && !VerifyHandoff(handoff.value, original.value))))
            && (r.Ok? ==> r.value.reason == if original.Some? then LeaseExpiry else OrphanCleanup)
  {
  }

  /** Once ordered, a deletion stays ordered, and whether the evidence is acceptable does
      not depend on the time. */
  lemma DeletionIsMonotone(
    original: Option<Original>, handoff: Option<Handoff>, run: WorkflowRun, job: Job, now: int, later: int)
    requires now <= later
    ensures CleanupDecision(original, handoff, run, job, now).Ok? <==> CleanupDecision(original, handoff, run, job, later).Ok?
    ensures CleanupDecision(original, handoff, run, job, now).Ok? && CleanupDecision(original, handoff, run, job, now).value.delete
        ==> CleanupDecision(original, handoff, run, job, later).value.delete
  {
    DeletionThreshold(original, handoff, run, job, now);
    DeletionThreshold(original, handoff, run, job, later);
  }

  /** Compared with having no receipt at all, a handoff moves the deletion by less than the
      creation window: up to five seconds earlier, up to the initial lease later. An
      original without a handoff always deletes earlier. */
  lemma EvidenceMovesTheThreshold(original: Original, handoff: Handoff, run: WorkflowRun, job: Job)
    requires VerifyOriginal(original) && VerifyHandoff(handoff, original)
    requires VerifyJobCreation(original.lease.createdAt, run, job)
    ensures var orphan := Threshold(None, None, job);
            && -5000 <= handoff.lease.hardExpiresAt - orphan < INITIAL + 5000
            && Threshold(Some(original), Some(handoff), job) == handoff.lease.hardExpiresAt
            && Threshold(Some(original), None, job) < orphan
  {
  }

  /** So more evidence does not always mean later deletion: a fixture created just before
      its job's recorded start is deleted with all receipts at an instant at which it would
      be kept with none. */
  lemma MoreEvidenceMayDeleteEarlier(original: Original, handoff: Handoff, run: WorkflowRun, job: Job)
    requires VerifyOriginal(original) && VerifyHandoff(handoff, original)
    requires VerifyJobCreation(original.lease.createdAt, run, job)
    requires !(run.completed && !run.succeeded)
    ensures (exists now :: CleanupDecision(Some(original), Some(handoff), run, job, now) == Ok(Decision(true, LeaseExpiry))
                        && CleanupDecision(None, None, run, job, now) == Ok(Decision(false, OrphanCleanup)))
       <==> original.lease.createdAt < job.startedAt
  {
    var now := original.lease.createdAt + MAX;
    if original.lease.createdAt < job.startedAt {
      assert CleanupDecision(Some(original), Some(handoff), run, job, now) == Ok(Decision(true, LeaseExpiry));
    }
  }
}
