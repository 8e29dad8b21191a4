/** The 24-hour resident observer: a sampling loop paced by the monotonic clock, the
    timing receipt it emits, and what that receipt proves about the day. Monotonic
    readings are nanoseconds, wall readings UTC milliseconds. */
module Resident {
  import opened Wrappers
  import opened LeaseContract

  const NS: int := 1000000
  const LATENESS: int := 300000

  /** One observation: the wall instant it reports and the monotonic time since the start. */
  datatype Sample = Sample(at: int, elapsed: nat)

  function Floor(ns: nat): (ms: int)
    ensures ms * NS <= ns < (ms + 1) * NS
  {
    ns / NS
  }

  function Ceil(ns: nat): (ms: int)
    ensures ns <= ms * NS < ns + NS
  {
    (ns + NS - 1) / NS
  }

  /** The elapsed time before which observation `k` is never made. */
  function Due(k: nat): (ms: int) {
    if k * HOUR < DAY then k * HOUR else DAY
  }

  function Before(s: seq<Sample>, k: nat): (ns: nat)
    requires k < |s|
  {
    if k == 0 then 0 else s[k - 1].elapsed
  }

  /** The largest gap, counting the start as an observation. */
  function MaxGap(s: seq<Sample>): (gap: nat)
    requires Increasing(s)
  {
    if s == [] then 0
    else
      var last := |s| - 1;
      Maximum(MaxGap(s[..last]), s[last].elapsed - Before(s, last))
  }

  function Maximum(a: nat, b: nat): (m: nat) {
    if a >= b then a else b
  }

  predicate Increasing(s: seq<Sample>) {
    forall k | 0 <= k < |s| :: Before(s, k) <= s[k].elapsed
  }

  predicate InWindow(at: int, startedAt: int, deadlineAt: int) {
    startedAt + 23 * HOUR <= at < deadlineAt - 60000
  }

  /** The last observation early enough for the deadline and late enough for the day. */
  function PreDeadline(s: seq<Sample>, startedAt: int, deadlineAt: int): (at: Option<int>) {
    if s == [] then None
    else
      var last := s[|s| - 1].at;
      if InWindow(last, startedAt, deadlineAt) then Some(last)
      else PreDeadline(s[..|s| - 1], startedAt, deadlineAt)
  }

  /** What the pacing guarantees of the observations made so far, whatever the delays. */
  predicate Paced(s: seq<Sample>) {
    && Increasing(s)
    && (forall k | 0 <= k < |s| :: s[k].elapsed >= Due(k) * NS)
    && (forall k | 0 <= k < |s| - 1 :: s[k].elapsed < DAY * NS)
  }

  predicate Complete(s: seq<Sample>) {
    Paced(s) && s != [] && s[|s| - 1].elapsed >= DAY * NS
  }

  // ----- what needs no assumption on delays -----

  /** Pacing alone bounds the loop: there are never more than 25 observations. */
  lemma NeverMoreThan25(s: seq<Sample>)
    requires Paced(s)
    ensures |s| <= 25
  {
    if |s| >= 25 {
      assert s[24].elapsed >= Due(24) * NS;
    }
  }

  function GapSum(s: seq<Sample>): (ns: nat)
    requires Increasing(s)
  {
    if s == [] then 0
    else GapSum(s[..|s| - 1]) + (s[|s| - 1].elapsed - Before(s, |s| - 1))
  }

  lemma PrefixIncreasing(s: seq<Sample>, n: nat)
    requires Increasing(s) && n <= |s|
    ensures Increasing(s[..n])
  {
    forall k | 0 <= k < n
      ensures Before(s[..n], k) <= s[..n][k].elapsed
    {
      assert Before(s[..n], k) == Before(s, k);
    }
  }

  /** The gaps telescope to the elapsed time of the last observation. */
  lemma {:induction false} GapsTelescope(s: seq<Sample>)
    requires Increasing(s)
    ensures GapSum(s) == if s == [] then 0 else s[|s| - 1].elapsed
    decreases |s|
  {
    if s != [] {
      PrefixIncreasing(s, |s| - 1);
      GapsTelescope(s[..|s| - 1]);
    }
  }

  lemma {:induction false} MaxGapBounds(s: seq<Sample>, k: nat)
    requires Increasing(s) && k < |s|
    ensures s[k].elapsed - Before(s, k) <= MaxGap(s)
    decreases |s|
  {
    var last := |s| - 1;
    PrefixIncreasing(s, last);
    if k < last {
      MaxGapBounds(s[..last], k);
      assert Before(s[..last], k) == Before(s, k);
    }
  }

  /** The maximum is attained, so no smaller bound would be true. */
  lemma {:induction false} MaxGapAttained(s: seq<Sample>) returns (k: nat)
    requires Increasing(s) && s != []
    ensures k < |s| && s[k].elapsed - Before(s, k) == MaxGap(s)
    decreases |s|
  {
    var last := |s| - 1;
    PrefixIncreasing(s, last);
    if last > 0 && MaxGap(s[..last]) >= s[last].elapsed - Before(s, last) {
      k := MaxGapAttained(s[..last]);
      assert Before(s[..last], k) == Before(s, k);
    } else {
      k := last;
    }
  }

  /** Every window inside the residency that is longer than the maximum gap contains an
      observation. */
  lemma {:induction false} WindowContainsObservation(s: seq<Sample>, from: nat, to: nat) returns (k: nat)
    requires Increasing(s) && s != [] && to <= s[|s| - 1].elapsed
    requires from + MaxGap(s) < to
    ensures k < |s| && from < s[k].elapsed <= to
    decreases |s|
  {
    var last := |s| - 1;
    if Before(s, last) < to {
      MaxGapBounds(s, last);
      k := if s[last].elapsed <= to then last else last - 1;
    } else {
      PrefixIncreasing(s, last);
      assert MaxGap(s[..last]) <= MaxGap(s);
      k := WindowContainsObservation(s[..last], from, to);
    }
  }

  // ----- what bounded delays give -----

  /** Timer overshoot plus the observation itself stay within five minutes each time. */
  predicate Timely(s: seq<Sample>) {
    forall k | 0 <= k < |s| :: s[k].elapsed <= (Due(k) + LATENESS) * NS
  }

  lemma TimelyRunMakesExactly25(s: seq<Sample>)
    requires Complete(s) && Timely(s)
    ensures |s| == 25
  {
    NeverMoreThan25(s);
    var last := |s| - 1;
    assert s[last].elapsed <= (Due(last) + LATENESS) * NS;
  }

  lemma TimelyGap(s: seq<Sample>)
    requires Complete(s) && Timely(s)
    ensures 0 < Ceil(MaxGap(s)) <= HOUR + LATENESS
  {
    TimelyRunMakesExactly25(s);
    var k := MaxGapAttained(s);
    assert s[k].elapsed <= (Due(k) + LATENESS) * NS;
    if k > 0 {
      assert s[k - 1].elapsed >= Due(k - 1) * NS;
    }
    var _ := PositiveGap(s);
  }

  /** A complete run has a positive gap. */
  lemma PositiveGap(s: seq<Sample>) returns (k: nat)
    requires Complete(s)
    ensures k < |s| && s[k].elapsed - Before(s, k) > 0
    ensures MaxGap(s) > 0
  {
    k := 0;
    while s[k].elapsed == Before(s, k)
      invariant k < |s|
      invariant Before(s, k) == 0
      decreases |s| - k
    {
      k := k + 1;
    }
    MaxGapBounds(s, k);
  }

  /** The 24th observation alone puts an instant into the pre-deadline window. */
  lemma {:induction false} PreDeadlineFound(s: seq<Sample>, startedAt: int, deadlineAt: int, k: nat)
    requires k < |s| && InWindow(s[k].at, startedAt, deadlineAt)
    ensures PreDeadline(s, startedAt, deadlineAt).Some?
    ensures InWindow(PreDeadline(s, startedAt, deadlineAt).value, startedAt, deadlineAt)
    decreases |s|
  {
    if !InWindow(s[|s| - 1].at, startedAt, deadlineAt) {
      PreDeadlineFound(s[..|s| - 1], startedAt, deadlineAt, k);
    }
  }

  /** An instant is recorded only if some observation was made in the window. */
  lemma {:induction false} PreDeadlineObserved(s: seq<Sample>, startedAt: int, deadlineAt: int) returns (k: nat)
    requires PreDeadline(s, startedAt, deadlineAt).Some?
    ensures k < |s| && s[k].at == PreDeadline(s, startedAt, deadlineAt).value
    ensures InWindow(s[k].at, startedAt, deadlineAt)
    ensures forall j | k < j < |s| :: !InWindow(s[j].at, startedAt, deadlineAt)
    decreases |s|
  {
    var last := |s| - 1;
    if InWindow(s[last].at, startedAt, deadlineAt) {
      k := last;
    } else {
      k := PreDeadlineObserved(s[..last], startedAt, deadlineAt);
    }
  }

  /** The receipt of a finished loop. */
  function Receipt(binding: Binding, startedAt: int, finishedAt: int, elapsed: nat, s: seq<Sample>, deadlineAt: int): (v: Timing)
    requires Increasing(s)
  {
    Timing(binding, startedAt, finishedAt, Floor(elapsed), PreDeadline(s, startedAt, deadlineAt), |s|, Ceil(MaxGap(s)))
  }

  /** What the loop itself cannot influence: the prepared receipt, the process and the
      instants at which the day began and ended. */
  predicate Admissible(binding: Binding, startedAt: int, finishedAt: int, p: Prepared) {
    && VerifyPrepared(p)
    && VerifyBinding(binding, startedAt, p)
    && 0 <= startedAt - p.preparedAt <= 600000
    && startedAt < p.validation.deadlineAt - 60000
    && finishedAt > p.preflight.createdAt + DAY
    && finishedAt > p.preflight.cacheUpdatedAt + DAY
    && finishedAt > p.preflight.templateCacheUpdatedAt + DAY
    && finishedAt > p.validation.deadlineAt
  }

  /** The wall clock does not lag the monotonic clock at an observation. */
  predicate WallKeepsUp(sample: Sample, startedAt: int) {
    (sample.at - startedAt) * NS >= sample.elapsed
  }

  /** Producer meets verifier: a timely run makes exactly 25 observations and its receipt
      passes the contract, given a wall clock that keeps up at the 24th observation, agrees
      within five seconds at the end, and a deadline that leaves room after 23 hours. */
  lemma TimelyRunIsAccepted(
    s: seq<Sample>, binding: Binding, startedAt: int, finishedAt: int, elapsed: nat, p: Prepared)
    requires Complete(s) && Timely(s)
    requires Admissible(binding, startedAt, finishedAt, p)
    requires s[|s| - 1].elapsed <= elapsed && Floor(elapsed) <= DAY + HOUR
    requires Within5000(finishedAt - startedAt - Floor(elapsed))
    requires |s| > 23 ==> WallKeepsUp(s[23], startedAt) && s[23].at < p.validation.deadlineAt - 60000
    ensures |s| == 25
    ensures VerifyTiming(Receipt(binding, startedAt, finishedAt, elapsed, s, p.validation.deadlineAt), p)
  {
    TimelyRunMakesExactly25(s);
    TimelyGap(s);
    assert s[23].elapsed >= Due(23) * NS;
    PreDeadlineFound(s, startedAt, p.validation.deadlineAt, 23);
  }

  /** The recorded instant is that of the 24th observation when the wall clock has not lost
      five seconds by the 25th. */
  lemma RecordedAtThe24th(s: seq<Sample>, startedAt: int, p: Prepared)
    requires VerifyPrepared(p) && startedAt >= p.preparedAt
    requires |s| == 25 && WallKeepsUp(s[24], startedAt - 5000) && s[24].elapsed >= DAY * NS
    requires InWindow(s[23].at, startedAt, p.validation.deadlineAt)
    ensures PreDeadline(s, startedAt, p.validation.deadlineAt) == Some(s[23].at)
  {
    assert !InWindow(s[24].at, startedAt, p.validation.deadlineAt);
    assert s[..24][23] == s[23];
  }

  /** Some observation was made in the half-open window. */
  ghost predicate Observed(s: seq<Sample>, from: nat, to: nat) {
    exists k :: 0 <= k < |s| && from < s[k].elapsed <= to
  }

  lemma SmallGapsLeaveNoHole(s: seq<Sample>)
    requires Complete(s) && Ceil(MaxGap(s)) <= HOUR + LATENESS
    ensures forall from: nat, to: nat | from + (HOUR + LATENESS) * NS < to <= DAY * NS :: Observed(s, from, to)
  {
    forall from: nat, to: nat | from + (HOUR + LATENESS) * NS < to <= DAY * NS
      ensures Observed(s, from, to)
    {
      var k := WindowContainsObservation(s, from, to);
    }
  }

  /** What an accepted receipt of any completed run proves about the day, whatever the
      delays were: 24 or 25 observations, none missing from any window longer than 65
      minutes, and one made in the last hour before the deadline. */
  lemma AcceptedReceiptProvesCustody(
    s: seq<Sample>, binding: Binding, startedAt: int, finishedAt: int, elapsed: nat, p: Prepared)
    requires Complete(s) && s[|s| - 1].elapsed <= elapsed
    requires VerifyTiming(Receipt(binding, startedAt, finishedAt, elapsed, s, p.validation.deadlineAt), p)
    ensures 24 <= |s| <= 25
    ensures forall from: nat, to: nat | from + (HOUR + LATENESS) * NS < to <= DAY * NS :: Observed(s, from, to)
    ensures exists k :: 0 <= k < |s| && InWindow(s[k].at, startedAt, p.validation.deadlineAt)
  {
    NeverMoreThan25(s);
    var v := Receipt(binding, startedAt, finishedAt, elapsed, s, p.validation.deadlineAt);
    assert v.maximumObservationGapMs <= HOUR + LATENESS && v.preDeadlineObservedAt.Some? && v.keptObservationCount >= 24;
    SmallGapsLeaveNoHole(s);
    var k := PreDeadlineObserved(s, startedAt, p.validation.deadlineAt);
  }

  /** The lease cannot expire under the loop while the wall clock runs at most five seconds
      ahead of the monotonic clock. */
  lemma LeaseOutlivesTheDay(handoff: Lease, p: Prepared, startedAt: int, wall: int, elapsed: nat)
    requires VerifyPrepared(p) && VerifyLease(handoff) && handoff.phase.ResidentOwned?
    requires handoff.createdAt == p.lease.createdAt
    requires startedAt - p.preparedAt <= 600000 && elapsed <= (DAY + HOUR) * NS
    requires wall <= startedAt + Floor(elapsed) + 5000
    ensures wall < handoff.expiresAt && wall < handoff.hardExpiresAt
  {
  }

  // ----- the loop -----

  /** One more observation after a pause that lasted until it was due. */
  lemma PushSample(s: seq<Sample>, e: Sample, startedAt: int, deadlineAt: int)
    requires Paced(s) && (s != [] ==> s[|s| - 1].elapsed < DAY * NS)
    requires e.elapsed >= Due(|s|) * NS && (s != [] ==> s[|s| - 1].elapsed <= e.elapsed)
    ensures var t := s + [e];
            && Paced(t)
            && MaxGap(t) == Maximum(MaxGap(s), e.elapsed - (if s == [] then 0 else s[|s| - 1].elapsed))
            && PreDeadline(t, startedAt, deadlineAt)
               == if InWindow(e.at, startedAt, deadlineAt) then Some(e.at) else PreDeadline(s, startedAt, deadlineAt)
  {
    var t := s + [e];
    assert t[..|s|] == s && t[|s|] == e;
    PushIncreasing(s, e);
    assert Before(t, |s|) == if s == [] then 0 else s[|s| - 1].elapsed;
  }

  lemma PushIncreasing(s: seq<Sample>, e: Sample)
    requires Increasing(s) && (s != [] ==> s[|s| - 1].elapsed <= e.elapsed)
    ensures Increasing(s + [e])
  {
    var t := s + [e];
    forall k | 0 <= k < |t|
      ensures Before(t, k) <= t[k].elapsed
    {
      if k < |s| {
        assert Before(t, k) == Before(s, k);
      }
    }
  }

  /** What the clocks showed at one moment: after time passed, after a successful
      observation, or after a refused one. */
  datatype Reading =
    | Passed(ns: nat, wall: int)
    | Kept(ns: nat, wall: int)
    | Failed(ns: nat, wall: int)

  function Last(log: seq<Reading>): (r: Reading)
    requires log != []
  {
    log[|log| - 1]
  }

  /** The observations logged since entry `from`: each kept one reports its own wall instant
      and the monotonic time of the reading that follows it. */
  function Samples(log: seq<Reading>, from: nat, start: nat): (s: seq<Sample>) {
    if |log| <= from + 1 then []
    else
      var earlier := log[..|log| - 1];
      var elapsed := if Last(log).ns >= start then Last(log).ns - start else 0;
      Samples(earlier, from, start) + (if Last(earlier).Kept? then [Sample(Last(earlier).wall, elapsed)] else [])
  }

  lemma NextReading(log: seq<Reading>, next: Reading, from: nat, start: nat)
    requires from <= |log| && log != [] && start <= next.ns
    ensures Samples(log + [next], from, start)
         == Samples(log, from, start)
          + (if |log| > from && Last(log).Kept? then [Sample(Last(log).wall, next.ns - start)] else [])
  {
    assert (log + [next])[..|log|] == log;
  }

  ghost function KeptAt(log: seq<Reading>, from: nat): (indices: set<nat>) {
    set i: nat | from <= i < |log| - 1 && log[i].Kept?
  }

  /** There are as many samples as successful observations with a reading after them. */
  lemma {:induction false} EveryObservationIsASample(log: seq<Reading>, from: nat, start: nat)
    ensures |Samples(log, from, start)| == |KeptAt(log, from)|
    decreases |log|
  {
    if |log| > from + 1 {
      var earlier := log[..|log| - 1];
      EveryObservationIsASample(earlier, from, start);
      var previous: nat := |log| - 2;
      assert KeptAt(log, from) == KeptAt(earlier, from) + (if log[previous].Kept? then {previous} else {});
    } else {
      assert KeptAt(log, from) == {};
    }
  }

  /** Entries from `from` on without any observation. */
  ghost predicate Idle(log: seq<Reading>, from: nat) {
    forall i | from <= i < |log| :: log[i].Passed?
  }

  /** Before every observation the lease was found unexpired. */
  ghost predicate Leased(log: seq<Reading>, from: nat, expiresAt: int, hardExpiresAt: int) {
    forall i | 0 < from <= i < |log| && !log[i].Passed? ::
      log[i - 1].wall < expiresAt && log[i - 1].wall < hardExpiresAt
  }

  /** The two clocks of the resident's machine. Time passes by an unknown amount; the wall
      clock may be set to anything. `log` holds every reading, the present one last. */
  class Clock {
    var ns: nat
    var wall: int
    ghost var log: seq<Reading>

    ghost predicate Valid()
      reads this
    {
      log != [] && Last(log).ns == ns && Last(log).wall == wall
    }

    method Pass()
      modifies this
      ensures Valid() && ns > old(ns)
      ensures log == old(log) + [Passed(ns, wall)]
    {
      var tick: nat :| tick > 0;
      var reading: int := *;
      ns, wall := ns + tick, reading;
      log := log + [Passed(ns, wall)];
    }

    /** Every native check of one observation; false is a refused observation. */
    method Observe() returns (ok: bool)
      modifies this
      ensures Valid() && ns > old(ns)
      ensures log == old(log) + [if ok then Kept(ns, wall) else Failed(ns, wall)]
    {
      ok := *;
      var tick: nat :| tick > 0;
      var reading: int := *;
      ns, wall := ns + tick, reading;
      log := log + [if ok then Kept(ns, wall) else Failed(ns, wall)];
    }
  }

  /** How the loop ends: with its measurements, an expired lease or a refused observation. */
  datatype Watched =
    | Measured(startedAt: int, finishedAt: int, elapsed: nat, preDeadline: Option<int>, count: nat, gap: nat)
    | ObservationRefused
    | LeaseExpired(wall: int)

  /** Waits until `next` milliseconds after `start`, checking the lease between naps. It is
      found expired exactly by the last reading, and by none before. */
  method Sleep(clock: Clock, start: nat, next: int, expiresAt: int) returns (expired: bool)
    requires clock.Valid() && clock.ns >= start
    modifies clock
    ensures clock.Valid() && clock.ns >= old(clock.ns)
    ensures old(clock.log) <= clock.log && Idle(clock.log, |old(clock.log)|)
    ensures forall i | |old(clock.log)| <= i + 1 < |clock.log| :: clock.log[i].wall < expiresAt
    ensures expired <==> clock.ns - start < next * NS
    ensures expired ==> clock.wall >= expiresAt
  {
    while clock.ns - start < next * NS
      invariant clock.Valid() && clock.ns >= old(clock.ns)
      invariant old(clock.log) <= clock.log && Idle(clock.log, |old(clock.log)|)
      invariant forall i | |old(clock.log)| <= i + 1 < |clock.log| :: clock.log[i].wall < expiresAt
      decreases next * NS - (clock.ns - start)
    {
      if clock.wall >= expiresAt {
        return true;
      }
      clock.Pass();
    }
    return false;
  }

  lemma {:induction false} IdleAddsNothing(before: seq<Reading>, after: seq<Reading>, from: nat, start: nat)
    requires before <= after && from < |before| && Idle(after, |before|) && !Last(before).Kept?
    ensures Samples(after, from, start) == Samples(before, from, start)
    ensures !Last(after).Kept?
    decreases |after|
  {
    if |after| > |before| {
      var shorter := after[..|after| - 1];
      IdleAddsNothing(before, shorter, from, start);
    } else {
      assert after == before;
    }
  }

  /** The log since entry `from` holds exactly the samples `s`, each made under the lease. */
  ghost predicate Recorded(log: seq<Reading>, from: nat, start: nat, s: seq<Sample>, expiresAt: int, hardExpiresAt: int) {
    && 0 < from <= |log| && !Last(log).Kept?
    && s == Samples(log, from, start)
    && Leased(log, from, expiresAt, hardExpiresAt)
  }

  lemma IdleKeepsRecorded(
    before: seq<Reading>, after: seq<Reading>, from: nat, start: nat, s: seq<Sample>, expiresAt: int, hardExpiresAt: int)
    requires Recorded(before, from, start, s, expiresAt, hardExpiresAt)
    requires before <= after && Idle(after, |before|) && from < |before|
    ensures Recorded(after, from, start, s, expiresAt, hardExpiresAt)
  {
    IdleAddsNothing(before, after, from, start);
  }

  lemma KeptIsRecorded(
    log: seq<Reading>, kept: Reading, read: Reading, from: nat, start: nat, s: seq<Sample>, expiresAt: int, hardExpiresAt: int)
    requires Recorded(log, from, start, s, expiresAt, hardExpiresAt)
    requires Last(log).wall < expiresAt && Last(log).wall < hardExpiresAt
    requires kept.Kept? && read.Passed? && start <= kept.ns <= read.ns
    ensures Recorded(log + [kept] + [read], from, start, s + [Sample(kept.wall, read.ns - start)], expiresAt, hardExpiresAt)
  {
    NextReading(log, kept, from, start);
    NextReading(log + [kept], read, from, start);
  }

  lemma FailedIsRecorded(
    log: seq<Reading>, failed: Reading, from: nat, start: nat, s: seq<Sample>, expiresAt: int, hardExpiresAt: int)
    requires Recorded(log, from, start, s, expiresAt, hardExpiresAt)
    requires Last(log).wall < expiresAt && Last(log).wall < hardExpiresAt
    requires failed.Failed? && start <= failed.ns
    ensures Recorded(log + [failed], from, start, s, expiresAt, hardExpiresAt)
  {
    NextReading(log, failed, from, start);
  }

  /** One observation under an unexpired lease, and the reading of the monotonic clock. */
  method Sampled(clock: Clock, start: nat, ghost from: nat, ghost s: seq<Sample>, ghost expiresAt: int, ghost hardExpiresAt: int)
    returns (ok: bool, at: int, elapsed: nat)
    requires clock.Valid() && clock.ns >= start && clock.wall < expiresAt && clock.wall < hardExpiresAt
    requires Recorded(clock.log, from, start, s, expiresAt, hardExpiresAt)
    modifies clock
    ensures clock.Valid() && clock.ns > old(clock.ns) && old(clock.log) <= clock.log && |clock.log| > from
    ensures if ok then elapsed == clock.ns - start else Last(clock.log).Failed?
    ensures Recorded(clock.log, from, start, if ok then s + [Sample(at, elapsed)] else s, expiresAt, hardExpiresAt)
  {
    ok := clock.Observe();
    at, elapsed := clock.wall, 0;
    ghost var observed := Last(clock.log);
    if ok {
      clock.Pass();
      elapsed := clock.ns - start;
      KeptIsRecorded(old(clock.log), observed, Last(clock.log), from, start, s, expiresAt, hardExpiresAt);
    } else {
      FailedIsRecorded(old(clock.log), observed, from, start, s, expiresAt, hardExpiresAt);
    }
  }

  /** The loop's variables. */
  datatype Tally = Tally(count: nat, last: nat, gap: nat, preDeadline: Option<int>)

  /** They are what the samples made so far amount to. */
  ghost predicate Tallies(t: Tally, s: seq<Sample>, startedAt: int, deadlineAt: int) {
    && Paced(s) && t.count == |s|
    && t.last == (if s == [] then 0 else s[|s| - 1].elapsed)
    && t.gap == MaxGap(s) && t.preDeadline == PreDeadline(s, startedAt, deadlineAt)
  }

  /** What one observation does to the variables. */
  method Count(t: Tally, at: int, elapsed: nat, startedAt: int, deadlineAt: int, ghost s: seq<Sample>) returns (u: Tally)
    requires Tallies(t, s, startedAt, deadlineAt)
    requires t.last < DAY * NS && t.last <= elapsed && elapsed >= Due(t.count) * NS
    ensures Tallies(u, s + [Sample(at, elapsed)], startedAt, deadlineAt)
    ensures u.count == t.count + 1 && u.last == elapsed
  {
    PushSample(s, Sample(at, elapsed), startedAt, deadlineAt);
    u := Tally(t.count + 1, elapsed, Maximum(t.gap, elapsed - t.last),
               if InWindow(at, startedAt, deadlineAt) then Some(at) else t.preDeadline);
  }

  datatype Turn = Continue | Finished | Expired | Broken

  /** One turn of the loop. */
  method TakeTurn(clock: Clock, start: nat, t: Tally, startedAt: int, expiresAt: int, hardExpiresAt: int, deadlineAt: int,
                  ghost from: nat, ghost s: seq<Sample>)
    returns (turn: Turn, u: Tally, ghost more: seq<Sample>)
    requires clock.Valid() && Recorded(clock.log, from, start, s, expiresAt, hardExpiresAt)
    requires Tallies(t, s, startedAt, deadlineAt) && t.last < DAY * NS
    requires clock.ns - start >= t.last && clock.ns - start >= Due(t.count) * NS
    modifies clock
    ensures clock.Valid() && old(clock.log) <= clock.log
    ensures Recorded(clock.log, from, start, more, expiresAt, hardExpiresAt) && Tallies(u, more, startedAt, deadlineAt)
    ensures clock.ns - start >= u.last
    ensures turn.Continue? ==> u.last < DAY * NS && u.count == t.count + 1 && clock.ns - start >= Due(u.count) * NS
    ensures turn.Finished? ==> Complete(more) && |clock.log| > from
    ensures turn.Expired? ==> clock.wall >= expiresAt || clock.wall >= hardExpiresAt
    ensures turn.Broken? ==> Last(clock.log).Failed?
  {
    u, more := t, s;
    if clock.wall >= expiresAt || clock.wall >= hardExpiresAt {
      return Expired, u, more;
    }
    var ok, at, elapsed := Sampled(clock, start, from, s, expiresAt, hardExpiresAt);
    if !ok {
      return Broken, u, more;
    }
    u := Count(t, at, elapsed, startedAt, deadlineAt, s);
    more := s + [Sample(at, elapsed)];
    if elapsed >= DAY * NS {
      return Finished, u, more;
    }
    var expired := Pause(clock, start, u.count, expiresAt, hardExpiresAt, from, more);
    turn := if expired then Expired else Continue;
  }

  /** The pause before the next observation is due. */
  method Pause(clock: Clock, start: nat, count: nat, expiresAt: int, ghost hardExpiresAt: int, ghost from: nat, ghost s: seq<Sample>)
    returns (expired: bool)
    requires clock.Valid() && clock.ns >= start && from < |clock.log|
    requires Recorded(clock.log, from, start, s, expiresAt, hardExpiresAt)
    modifies clock
    ensures clock.Valid() && old(clock.log) <= clock.log && clock.ns >= old(clock.ns)
    ensures Recorded(clock.log, from, start, s, expiresAt, hardExpiresAt)
    ensures if expired then clock.wall >= expiresAt else clock.ns - start >= Due(count) * NS
  {
    expired := Sleep(clock, start, if count * HOUR < DAY then count * HOUR else DAY, expiresAt);
    IdleKeepsRecorded(old(clock.log), clock.log, from, start, s, expiresAt, hardExpiresAt);
  }

  /** The observation loop: whatever the clocks do it ends, and what it measures is the
      count, the largest gap and the pre-deadline instant of a complete paced run, whose
      samples are exactly the observations that the clock delivered meanwhile. */
  method Watch(clock: Clock, expiresAt: int, hardExpiresAt: int, deadlineAt: int)
    returns (w: Watched, ghost s: seq<Sample>)
    requires clock.Valid() && !Last(clock.log).Kept?
    modifies clock
    ensures clock.Valid() && old(clock.log) <= clock.log
    ensures Recorded(clock.log, |old(clock.log)|, old(clock.ns), s, expiresAt, hardExpiresAt)
    ensures Paced(s)
    ensures w.Measured? ==>
              && Complete(s) && s[|s| - 1].elapsed <= w.elapsed
              && w.startedAt == old(clock.wall)
              && w.elapsed == clock.ns - old(clock.ns)
              && |clock.log| >= |old(clock.log)| + 2 && w.finishedAt == clock.log[|clock.log| - 2].wall
              && w.count == |s| && w.gap == MaxGap(s) && w.preDeadline == PreDeadline(s, w.startedAt, deadlineAt)
    ensures w.LeaseExpired? ==> w.wall == clock.wall && (w.wall >= expiresAt || w.wall >= hardExpiresAt)
    ensures w.ObservationRefused? ==> Last(clock.log).Failed?
  {
    ghost var from := |clock.log|;
    s := [];
    var startedAt, start := clock.wall, clock.ns;
    var tally, turn := Tally(0, 0, 0, None), Continue;
    while turn.Continue?
      invariant clock.Valid() && old(clock.log) <= clock.log
      invariant Recorded(clock.log, from, start, s, expiresAt, hardExpiresAt)
      invariant Tallies(tally, s, startedAt, deadlineAt) && clock.ns - start >= tally.last
      invariant turn.Continue? ==> tally.last < DAY * NS && clock.ns - start >= Due(tally.count) * NS
      invariant turn.Finished? ==> Complete(s) && |clock.log| > from
      invariant turn.Expired? ==> clock.wall >= expiresAt || clock.wall >= hardExpiresAt
      invariant turn.Broken? ==> Last(clock.log).Failed?
      decreases turn.Continue?, 25 - tally.count
    {
      NeverMoreThan25(s);
      turn, tally, s := TakeTurn(clock, start, tally, startedAt, expiresAt, hardExpiresAt, deadlineAt, from, s);
      NeverMoreThan25(s);
    }
    if turn.Expired? {
      return LeaseExpired(clock.wall), s;
    }
    if turn.Broken? {
      return ObservationRefused, s;
    }
    var finishedAt := Finish(clock, start, from, s, expiresAt, hardExpiresAt);
    w := Measured(startedAt, finishedAt, clock.ns - start, tally.preDeadline, tally.count, tally.gap);
  }

  /** The two readings of the receipt. */
  method Finish(clock: Clock, ghost start: nat, ghost from: nat, ghost s: seq<Sample>, ghost expiresAt: int, ghost hardExpiresAt: int)
    returns (finishedAt: int)
    requires clock.Valid() && from < |clock.log| && Recorded(clock.log, from, start, s, expiresAt, hardExpiresAt)
    modifies clock
    ensures clock.Valid() && old(clock.log) <= clock.log && clock.ns > old(clock.ns)
    ensures |clock.log| == |old(clock.log)| + 2 && clock.log[|clock.log| - 2].wall == finishedAt
    ensures Recorded(clock.log, from, start, s, expiresAt, hardExpiresAt)
  {
    clock.Pass();
    finishedAt := clock.wall;
    clock.Pass();
    IdleKeepsRecorded(old(clock.log), clock.log, from, start, s, expiresAt, hardExpiresAt);
  }

  datatype Outcome = Published(receipt: Timing) | ContractRefused(receipt: Timing) | Refused

  /** The day and its receipt, which is that of the observations the clock delivered and is
      published exactly if the contract accepts it. */
  method Run(clock: Clock, handoff: Lease, p: Prepared, binding: Binding)
    returns (o: Outcome, ghost s: seq<Sample>)
    requires clock.Valid() && !Last(clock.log).Kept?
    modifies clock
    ensures clock.Valid() && old(clock.log) <= clock.log
    ensures Recorded(clock.log, |old(clock.log)|, old(clock.ns), s, handoff.expiresAt, handoff.hardExpiresAt)
    ensures !o.Refused? ==>
              && clock.ns >= old(clock.ns) && |clock.log| >= |old(clock.log)| + 2
              && Complete(s) && s[|s| - 1].elapsed <= clock.ns - old(clock.ns)
              && o.receipt == Receipt(binding, old(clock.wall), clock.log[|clock.log| - 2].wall,
                                      clock.ns - old(clock.ns), s, p.validation.deadlineAt)
              && (o.Published? <==> VerifyTiming(o.receipt, p))
    ensures o.Refused? ==>
              clock.wall >= handoff.expiresAt || clock.wall >= handoff.hardExpiresAt || Last(clock.log).Failed?
  {
    var w;
    w, s := Watch(clock, handoff.expiresAt, handoff.hardExpiresAt, p.validation.deadlineAt);
    if !w.Measured? {
      return Refused, s;
    }
    var receipt := Timing(binding, w.startedAt, w.finishedAt, Floor(w.elapsed), w.preDeadline, w.count, Ceil(w.gap));
    o := if VerifyTiming(receipt, p) then Published(receipt) else ContractRefused(receipt);
  }
}
