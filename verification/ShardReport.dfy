/** The verifier of one diagnostic shard's report: a verdict built by loops that push errors,
    and the declarative meaning of an empty one. */
module ShardReport {
  import opened Wrappers
  import opened Sequences
  import opened Shards

  datatype Scenario = Scenario(id: Id, passed: bool)

  /** The header fields, with an absent text as `None`. */
  datatype Header = Header(
    shard: Option<string>, experimental: bool, qualificationStatus: Option<string>,
    status: Option<string>, budgetExhausted: bool, cleanup: Option<string>)

  /** The lists; one that is not an array is `None`. */
  datatype Report = Report(
    header: Header, scenarios: Option<seq<Scenario>>, missing: Option<seq<Id>>, required: Option<seq<Id>>)

  datatype ShardError =
    | InvalidReport | UnknownShard
    | DifferentShard | NotDiagnostic | NotPassed | CleanupNotPassed | NoScenarios | Unexecuted(count: nat)
    | Unexpected | Duplicate | Incomplete(id: Id)
    | RequirementsDiffer | Outside(id: Id)
    | Missing(id: Id) | MissingSetup(id: Id)

  /** The list of errors, or the exception for a scenario that no phase owns. */
  datatype Verdict = Throws | Errors(errors: seq<ShardError>)

  const RSA_SETUP: Id := Some("adcs-real-rsa2048-issued-cng-iis")

  /** Every shard without the core phase builds the shared fixture first. */
  function SharedSetup(shard: Shard): (setup: Option<Id>) {
    if Core in shard.phases then None else Some(RSA_SETUP)
  }

  function Known(expected: seq<Id>, shared: Option<Id>): (known: set<Id>) {
    (set id | id in expected) + (if shared.Some? then {shared.value} else {})
  }

  function OrEmpty<T>(list: Option<seq<T>>): (s: seq<T>) {
    if list.Some? then list.value else []
  }

  // ----- the errors, part by part -----

  function When(wrong: bool, error: ShardError): (errors: seq<ShardError>) {
    if wrong then [error] else []
  }

  function HeaderErrors(report: Report, name: string): (errors: seq<ShardError>) {
    IdentityErrors(report.header, name) + ListErrors(report)
  }

  function IdentityErrors(h: Header, name: string): (errors: seq<ShardError>) {
    When(h.shard != Some(name), DifferentShard)
    + When(!h.experimental || h.qualificationStatus != Some("not-qualified"), NotDiagnostic)
    + When(h.status != Some("passed") || h.budgetExhausted, NotPassed)
    + When(h.cleanup != Some("passed"), CleanupNotPassed)
  }

  function ListErrors(report: Report): (errors: seq<ShardError>) {
    When(OrEmpty(report.scenarios) == [], NoScenarios)
    + When(OrEmpty(report.missing) != [], Unexecuted(|OrEmpty(report.missing)|))
  }

  function Passed(scenarios: seq<Scenario>): (ids: set<Id>) {
    set s | s in scenarios && s.passed :: s.id
  }

  function OneScenario(s: Scenario, known: set<Id>, passed: set<Id>): (errors: seq<ShardError>) {
    When(s.id !in known, Unexpected) + When(s.id in passed, Duplicate) + When(!s.passed, Incomplete(s.id))
  }

  function ScenarioErrors(scenarios: seq<Scenario>, known: set<Id>): (errors: seq<ShardError>) {
    if scenarios == [] then []
    else
      var n := |scenarios| - 1;
      ScenarioErrors(scenarios[..n], known) + OneScenario(scenarios[n], known, Passed(scenarios[..n]))
  }

  predicate Differs(required: seq<Id>, expected: seq<Id>) {
    var distinct := set id | id in required;
    || |required| != |expected| || |distinct| != |expected|
    || exists id | id in required :: id !in expected
  }

  function OutsideErrors(shard: Shard, phaseOf: Id -> Option<Phase>, ids: seq<Id>): (errors: seq<ShardError>) {
    if ids == [] then []
    else
      var n := |ids| - 1;
      OutsideErrors(shard, phaseOf, ids[..n]) + When(!Owns(shard, phaseOf, ids[n]), Outside(ids[n]))
  }

  function MissingErrors(expected: seq<Id>, passed: set<Id>): (errors: seq<ShardError>) {
    if expected == [] then []
    else
      var n := |expected| - 1;
      MissingErrors(expected[..n], passed) + When(expected[n] !in passed, Missing(expected[n]))
  }

  function SetupErrors(shared: Option<Id>, passed: set<Id>): (errors: seq<ShardError>) {
    if shared.Some? && shared.value !in passed then [MissingSetup(shared.value)] else []
  }

  /** The whole verdict for a known shard. */
  function Judge(report: Report, shard: Shard, suite: seq<Id>, phaseOf: Id -> Option<Phase>): (verdict: seq<ShardError>) {
    var expected := Owned(shard, phaseOf, suite);
    var shared := SharedSetup(shard);
    var scenarios, required := OrEmpty(report.scenarios), OrEmpty(report.required);
    HeaderErrors(report, shard.name)
    + ScenarioErrors(scenarios, Known(expected, shared))
    + When(Differs(required, expected), RequirementsDiffer)
    + OutsideErrors(shard, phaseOf, required)
    + MissingErrors(expected, Passed(scenarios))
    + SetupErrors(shared, Passed(scenarios))
  }

  // ----- what an accepted report says -----

  ghost predicate HeaderOk(report: Report, name: string) {
    && report.header == Header(Some(name), true, Some("not-qualified"), Some("passed"), false, Some("passed"))
    && OrEmpty(report.missing) == []
    && report.scenarios.Some? && report.scenarios.value != []
  }

  function Ids(scenarios: seq<Scenario>): (ids: seq<Id>) {
    seq(|scenarios|, k requires 0 <= k < |scenarios| => scenarios[k].id)
  }

  /** The scenarios are a duplicate-free, all-passed enumeration of the known set. */
  ghost predicate Enumerates(scenarios: seq<Scenario>, known: set<Id>) {
    && NoDuplicates(Ids(scenarios))
    && (forall s | s in scenarios :: s.passed && s.id in known)
    && (forall id | id in known :: id in Ids(scenarios))
  }

  /** One list is a permutation of the other, and neither repeats an element. */
  ghost predicate Permutes(a: seq<Id>, b: seq<Id>) {
    NoDuplicates(a) && multiset(a) == multiset(b)
  }

  ghost predicate Acceptable(report: Report, shard: Shard, suite: seq<Id>, phaseOf: Id -> Option<Phase>) {
    var expected := Owned(shard, phaseOf, suite);
    && HeaderOk(report, shard.name)
    && Enumerates(report.scenarios.value, Known(expected, SharedSetup(shard)))
    && Permutes(OrEmpty(report.required), expected)
  }

  // ----- the verdict means exactly that -----

  lemma PassedIds(scenarios: seq<Scenario>, id: Id)
    ensures id in Passed(scenarios) ==> id in Ids(scenarios)
    ensures id in Ids(scenarios) && (forall s | s in scenarios :: s.passed) ==> id in Passed(scenarios)
  {
    if id in Passed(scenarios) {
      var k :| 0 <= k < |scenarios| && scenarios[k].id == id;
      assert Ids(scenarios)[k] == id;
    }
    if id in Ids(scenarios) {
      var k :| 0 <= k < |scenarios| && Ids(scenarios)[k] == id;
      assert scenarios[k] in scenarios;
    }
  }

  /** No error in the scenario loop: every scenario passed, is known, and none repeats. */
  lemma {:induction false} NoScenarioErrors(scenarios: seq<Scenario>, known: set<Id>)
    ensures ScenarioErrors(scenarios, known) == []
       <==> NoDuplicates(Ids(scenarios)) && forall s | s in scenarios :: s.passed && s.id in known
  {
    if scenarios != [] {
      var n := |scenarios| - 1;
      var front, last := scenarios[..n], scenarios[n];
      NoScenarioErrors(front, known);
      PassedIds(front, last.id);
      DistinctAppend(Ids(front), last.id);
      assert scenarios == front + [last];
      assert Ids(scenarios) == Ids(front) + [last.id];
    }
  }

  lemma DistinctAppend(front: seq<Id>, last: Id)
    ensures NoDuplicates(front + [last]) <==> NoDuplicates(front) && last !in front
  {
    var ids := front + [last];
    if NoDuplicates(ids) {
      assert forall k | 0 <= k < |front| :: front[k] == ids[k];
      assert ids[|front|] == last;
    }
  }

  lemma {:induction false} NoOutsideErrors(shard: Shard, phaseOf: Id -> Option<Phase>, ids: seq<Id>)
    ensures OutsideErrors(shard, phaseOf, ids) == [] <==> forall id | id in ids :: Owns(shard, phaseOf, id)
  {
    if ids != [] {
      NoOutsideErrors(shard, phaseOf, ids[..|ids| - 1]);
      assert ids == ids[..|ids| - 1] + [ids[|ids| - 1]];
    }
  }

  lemma {:induction false} NoMissingErrors(expected: seq<Id>, passed: set<Id>)
    ensures MissingErrors(expected, passed) == [] <==> forall id | id in expected :: id in passed
  {
    if expected != [] {
      NoMissingErrors(expected[..|expected| - 1], passed);
      assert expected == expected[..|expected| - 1] + [expected[|expected| - 1]];
    }
  }

  // ----- permutations -----

  function Elements(ids: seq<Id>): (s: set<Id>) {
    set id | id in ids
  }

  lemma {:induction false} DistinctCounts(ids: seq<Id>)
    ensures |Elements(ids)| <= |ids|
    ensures NoDuplicates(ids) <==> |Elements(ids)| == |ids|
    decreases |ids|
  {
    if ids != [] {
      var n := |ids| - 1;
      DistinctCounts(ids[..n]);
      DistinctAppend(ids[..n], ids[n]);
      assert ids == ids[..n] + [ids[n]];
      assert Elements(ids) == Elements(ids[..n]) + {ids[n]};
    }
  }

  lemma {:induction false} DistinctOccurs(ids: seq<Id>, id: Id)
    requires NoDuplicates(ids)
    ensures multiset(ids)[id] == if id in ids then 1 else 0
    decreases |ids|
  {
    if ids != [] {
      var n := |ids| - 1;
      DistinctAppend(ids[..n], ids[n]);
      assert ids == ids[..n] + [ids[n]];
      DistinctOccurs(ids[..n], id);
    }
  }

  lemma SubsetOfSameSize(a: set<Id>, b: set<Id>)
    requires a <= b && |a| >= |b|
    ensures a == b
  {
    assert |b - a| == |b| - |a|;
  }

  /** The three comparisons of sizes and members amount to being a permutation. */
  lemma SameRequirements(required: seq<Id>, expected: seq<Id>)
    ensures !Differs(required, expected) <==> Permutes(required, expected)
  {
    DistinctCounts(required);
    DistinctCounts(expected);
    if !Differs(required, expected) {
      SubsetOfSameSize(Elements(required), Elements(expected));
      forall id
        ensures multiset(required)[id] == multiset(expected)[id]
      {
        DistinctOccurs(required, id);
        DistinctOccurs(expected, id);
        assert id in required <==> id in Elements(required);
        assert id in expected <==> id in Elements(expected);
      }
    }
    if Permutes(required, expected) {
      assert |multiset(required)| == |required| && |multiset(expected)| == |expected|;
      forall id | id in required
        ensures id in expected
      {
        assert id in multiset(expected);
      }
    }
  }

  lemma NoHeaderErrors(report: Report, name: string)
    ensures HeaderErrors(report, name) == [] <==> HeaderOk(report, name)
  {
  }

  /** The verdict is empty exactly when the header is right, the scenarios enumerate the owned
      set and the shared setup without repetition and all passed, and the required list is a
      permutation of the owned one. */
  lemma NoErrorsExactlyWhen(report: Report, shard: Shard, suite: seq<Id>, phaseOf: Id -> Option<Phase>)
    ensures Judge(report, shard, suite, phaseOf) == [] <==> Acceptable(report, shard, suite, phaseOf)
  {
    var expected, shared := Owned(shard, phaseOf, suite), SharedSetup(shard);
    var scenarios, required := OrEmpty(report.scenarios), OrEmpty(report.required);
    NoHeaderErrors(report, shard.name);
    NoScenarioErrors(scenarios, Known(expected, shared));
    SameRequirements(required, expected);
    NoOutsideErrors(shard, phaseOf, required);
    NoMissingErrors(expected, Passed(scenarios));
    PermutationIsOwned(required, expected);
    if forall s | s in scenarios :: s.passed {
      EnumerationIsComplete(scenarios, expected, shared);
    }
  }

  lemma PermutationIsOwned(required: seq<Id>, expected: seq<Id>)
    ensures Permutes(required, expected) ==> forall id | id in required :: id in expected
  {
    if Permutes(required, expected) {
      forall id | id in required
        ensures id in expected
      {
        assert id in multiset(expected);
      }
    }
  }

  lemma EnumerationIsComplete(scenarios: seq<Scenario>, expected: seq<Id>, shared: Option<Id>)
    requires forall s | s in scenarios :: s.passed
    ensures (forall id | id in expected :: id in Passed(scenarios)) && SetupErrors(shared, Passed(scenarios)) == []
       <==> forall id | id in Known(expected, shared) :: id in Ids(scenarios)
  {
    forall id
      ensures id in Passed(scenarios) <==> id in Ids(scenarios)
    {
      PassedIds(scenarios, id);
    }
  }

  // ----- the verifier -----

  function Verify(report: Option<Report>, name: string, suite: seq<Id>, phaseOf: Id -> Option<Phase>): (verdict: Verdict) {
    if report.None? then Errors([InvalidReport])
    else match IndexOf(name)
      case None => Errors([UnknownShard])
      case Some(k) =>
        if (exists id | id in suite :: phaseOf(id).None?)
           || (exists id | id in OrEmpty(report.value.required) :: phaseOf(id).None?) then Throws
        else Errors(Judge(report.value, SHARDS[k], suite, phaseOf))
  }

  /** The verifier returns no error exactly for an acceptable report of a diagnostic shard, in
      a suite whose scenarios all have a phase. */
  lemma AcceptedExactlyWhen(report: Option<Report>, name: string, suite: seq<Id>, phaseOf: Id -> Option<Phase>)
    ensures Verify(report, name, suite, phaseOf) == Errors([])
       <==> report.Some? && IndexOf(name).Some? && Assigned(phaseOf, suite)
            && Acceptable(report.value, SHARDS[IndexOf(name).value], suite, phaseOf)
  {
    if report.Some? && IndexOf(name).Some? {
      var shard := SHARDS[IndexOf(name).value];
      NoErrorsExactlyWhen(report.value, shard, suite, phaseOf);
      PermutationIsOwned(OrEmpty(report.value.required), Owned(shard, phaseOf, suite));
    }
  }

  lemma AcceptedForItsShard(report: Report, k: nat, suite: seq<Id>, phaseOf: Id -> Option<Phase>)
    requires k < |SHARDS| && Verify(Some(report), SHARDS[k].name, suite, phaseOf) == Errors([])
    ensures Assigned(phaseOf, suite) && Acceptable(report, SHARDS[k], suite, phaseOf)
  {
    AcceptedExactlyWhen(Some(report), SHARDS[k].name, suite, phaseOf);
    NamesAreDistinct(k, IndexOf(SHARDS[k].name).value);
  }

  lemma OwnedScenarioPassed(report: Report, shard: Shard, suite: seq<Id>, phaseOf: Id -> Option<Phase>, id: Id)
    requires Acceptable(report, shard, suite, phaseOf) && id in suite && Owns(shard, phaseOf, id)
    ensures Scenario(id, true) in report.scenarios.value
  {
    var scenarios := report.scenarios.value;
    assert id in Known(Owned(shard, phaseOf, suite), SharedSetup(shard));
    var i :| 0 <= i < |scenarios| && Ids(scenarios)[i] == id;
    assert scenarios[i] in scenarios;
  }

  /** Accepted reports of all diagnostic shards leave no scenario of the suite unexecuted. */
  lemma AllShardsCoverTheSuite(
    reports: seq<Report>, suite: seq<Id>, phaseOf: Id -> Option<Phase>, id: Id) returns (k: nat)
    requires |reports| == |SHARDS| && id in suite
    requires forall i | 0 <= i < |SHARDS| ::
               Verify(Some(reports[i]), SHARDS[i].name, suite, phaseOf) == Errors([])
    ensures k < |reports| && reports[k].scenarios.Some? && Scenario(id, true) in reports[k].scenarios.value
  {
    AcceptedForItsShard(reports[0], 0, suite, phaseOf);
    k := ShardOf(phaseOf(id).value);
    EveryPhaseHasOneShard(phaseOf(id).value, k);
    AcceptedForItsShard(reports[k], k, suite, phaseOf);
    OwnedScenarioPassed(reports[k], SHARDS[k], suite, phaseOf, id);
  }

  /** Every shard but the first also runs the shared setup, and nothing else that it does not
      own; the first one runs what it owns. */
  lemma AcceptedScenarios(report: Report, k: nat, suite: seq<Id>, phaseOf: Id -> Option<Phase>)
    requires k < |SHARDS| && Verify(Some(report), SHARDS[k].name, suite, phaseOf) == Errors([])
    ensures report.scenarios.Some?
    ensures k > 0 ==> Scenario(Some("adcs-real-rsa2048-issued-cng-iis"), true) in report.scenarios.value
    ensures forall s | s in report.scenarios.value ::
              (s.id in suite && Owns(SHARDS[k], phaseOf, s.id)) || (k > 0 && s.id == Some("adcs-real-rsa2048-issued-cng-iis"))
  {
    AcceptedForItsShard(report, k, suite, phaseOf);
    CoreIsFirst(k);
    var scenarios, shared := report.scenarios.value, SharedSetup(SHARDS[k]);
    if k > 0 {
      assert RSA_SETUP in Known(Owned(SHARDS[k], phaseOf, suite), shared);
      var i :| 0 <= i < |scenarios| && Ids(scenarios)[i] == RSA_SETUP;
      assert scenarios[i] in scenarios;
    }
  }

  lemma CoreIsFirst(k: nat)
    requires k < |SHARDS|
    ensures Core in SHARDS[k].phases <==> k == 0
  {
  }

  /** The verifier throws exactly for a known shard when some scenario of the suite or of the
      required list has no phase. */
  lemma ThrowsExactlyWhen(report: Option<Report>, name: string, suite: seq<Id>, phaseOf: Id -> Option<Phase>)
    ensures Verify(report, name, suite, phaseOf) == Throws <==>
              report.Some? && IndexOf(name).Some?
              && (!Assigned(phaseOf, suite) || !Assigned(phaseOf, OrEmpty(report.value.required)))
    ensures report.None? ==> Verify(report, name, suite, phaseOf) == Errors([InvalidReport])
    ensures report.Some? && IndexOf(name).None? ==> Verify(report, name, suite, phaseOf) == Errors([UnknownShard])
  {
  }

  // ----- what each error says -----

  lemma HeaderSays(report: Report, name: string, e: ShardError)
    ensures e in HeaderErrors(report, name) <==>
              || (e == DifferentShard && report.header.shard != Some(name))
              || (e == NotDiagnostic && (!report.header.experimental || report.header.qualificationStatus != Some("not-qualified")))
              || (e == NotPassed && (report.header.status != Some("passed") || report.header.budgetExhausted))
              || (e == CleanupNotPassed && report.header.cleanup != Some("passed"))
              || (e == NoScenarios && OrEmpty(report.scenarios) == [])
              || (report.missing.Some? && report.missing.value != [] && e == Unexecuted(|report.missing.value|))
  {
    IdentitySays(report.header, name, e);
  }

  lemma IdentitySays(h: Header, name: string, e: ShardError)
    ensures e in IdentityErrors(h, name) <==>
              || (e == DifferentShard && h.shard != Some(name))
              || (e == NotDiagnostic && (!h.experimental || h.qualificationStatus != Some("not-qualified")))
              || (e == NotPassed && (h.status != Some("passed") || h.budgetExhausted))
              || (e == CleanupNotPassed && h.cleanup != Some("passed"))
  {
    assert forall wrong: bool, error: ShardError :: e in When(wrong, error) <==> wrong && e == error;
  }

  lemma OneSays(scenarios: seq<Scenario>, k: nat, known: set<Id>, e: ShardError)
    requires k < |scenarios|
    ensures e in OneScenario(scenarios[k], known, Passed(scenarios[..k])) <==> ScenarioSays(scenarios, k, known, e)
  {
    assert forall wrong: bool, error: ShardError :: e in When(wrong, error) <==> wrong && e == error;
    PassedMeans(scenarios[..k]);
  }

  lemma SaysOfPrefix(scenarios: seq<Scenario>, n: nat, k: nat, known: set<Id>, e: ShardError)
    requires k < n <= |scenarios|
    ensures ScenarioSays(scenarios[..n], k, known, e) <==> ScenarioSays(scenarios, k, known, e)
  {
    assert scenarios[..n][..k] == scenarios[..k];
  }

  /** Some scenario is not known, or repeats one that passed before it, or did not pass. */
  ghost predicate SomeScenarioSays(scenarios: seq<Scenario>, known: set<Id>, e: ShardError) {
    exists k :: 0 <= k < |scenarios| && ScenarioSays(scenarios, k, known, e)
  }

  lemma {:induction false} ScenariosSay(scenarios: seq<Scenario>, known: set<Id>, e: ShardError)
    ensures e in ScenarioErrors(scenarios, known) <==> SomeScenarioSays(scenarios, known, e)
    decreases |scenarios|
  {
    if scenarios != [] {
      var n := |scenarios| - 1;
      ScenariosSay(scenarios[..n], known, e);
      OneSays(scenarios, n, known, e);
      SomeOfPrefix(scenarios, n, known, e);
    }
  }

  lemma SomeOfPrefix(scenarios: seq<Scenario>, n: nat, known: set<Id>, e: ShardError)
    requires n + 1 == |scenarios|
    ensures SomeScenarioSays(scenarios, known, e) <==>
              SomeScenarioSays(scenarios[..n], known, e) || ScenarioSays(scenarios, n, known, e)
  {
    forall k: nat | k < n
      ensures ScenarioSays(scenarios[..n], k, known, e) <==> ScenarioSays(scenarios, k, known, e)
    {
      SaysOfPrefix(scenarios, n, k, known, e);
    }
  }

  ghost predicate ScenarioSays(scenarios: seq<Scenario>, k: nat, known: set<Id>, e: ShardError)
    requires k < |scenarios|
  {
    || (e == Unexpected && scenarios[k].id !in known)
    || (e == Duplicate && Scenario(scenarios[k].id, true) in scenarios[..k])
    || (e == Incomplete(scenarios[k].id) && !scenarios[k].passed)
  }

  lemma {:induction false} OutsideSays(shard: Shard, phaseOf: Id -> Option<Phase>, ids: seq<Id>, e: ShardError)
    ensures e in OutsideErrors(shard, phaseOf, ids) <==> e.Outside? && e.id in ids && !Owns(shard, phaseOf, e.id)
    decreases |ids|
  {
    if ids != [] {
      OutsideSays(shard, phaseOf, ids[..|ids| - 1], e);
      assert ids == ids[..|ids| - 1] + [ids[|ids| - 1]];
    }
  }

  lemma {:induction false} MissingSays(expected: seq<Id>, passed: set<Id>, e: ShardError)
    ensures e in MissingErrors(expected, passed) <==> e.Missing? && e.id in expected && e.id !in passed
    decreases |expected|
  {
    if expected != [] {
      MissingSays(expected[..|expected| - 1], passed, e);
      assert expected == expected[..|expected| - 1] + [expected[|expected| - 1]];
    }
  }

  lemma JudgeParts(report: Report, shard: Shard, suite: seq<Id>, phaseOf: Id -> Option<Phase>, e: ShardError)
    ensures var expected, shared := Owned(shard, phaseOf, suite), SharedSetup(shard);
            var scenarios, required := OrEmpty(report.scenarios), OrEmpty(report.required);
            e in Judge(report, shard, suite, phaseOf) <==>
              || e in HeaderErrors(report, shard.name)
              || e in ScenarioErrors(scenarios, Known(expected, shared))
              || (e == RequirementsDiffer && Differs(required, expected))
              || e in OutsideErrors(shard, phaseOf, required)
              || e in MissingErrors(expected, Passed(scenarios))
              || e in SetupErrors(shared, Passed(scenarios))
  {
  }

  /** Each kind of error is reported exactly for its cause. */
  lemma JudgeSays(report: Report, shard: Shard, suite: seq<Id>, phaseOf: Id -> Option<Phase>, e: ShardError)
    ensures var scenarios, required := OrEmpty(report.scenarios), OrEmpty(report.required);
            var known := Known(Owned(shard, phaseOf, suite), SharedSetup(shard));
            e in Judge(report, shard, suite, phaseOf) <==>
              || e in HeaderErrors(report, shard.name)
              || SomeScenarioSays(scenarios, known, e)
              || (e == RequirementsDiffer && !Permutes(required, Owned(shard, phaseOf, suite)))
              || (e.Outside? && e.id in required && !Owns(shard, phaseOf, e.id))
              || (e.Missing? && e.id in suite && Owns(shard, phaseOf, e.id) && Scenario(e.id, true) !in scenarios)
              || (e == MissingSetup(RSA_SETUP) && Core !in shard.phases && Scenario(RSA_SETUP, true) !in scenarios)
  {
    var expected, shared := Owned(shard, phaseOf, suite), SharedSetup(shard);
    var scenarios, required := OrEmpty(report.scenarios), OrEmpty(report.required);
    JudgeParts(report, shard, suite, phaseOf, e);
    ScenariosSay(scenarios, Known(expected, shared), e);
    SameRequirements(required, expected);
    OutsideSays(shard, phaseOf, required, e);
    MissingSays(expected, Passed(scenarios), e);
    PassedMeans(scenarios);
  }

  lemma PassedMeans(scenarios: seq<Scenario>)
    ensures forall id :: id in Passed(scenarios) <==> Scenario(id, true) in scenarios
  {
    forall id
      ensures id in Passed(scenarios) <==> Scenario(id, true) in scenarios
    {
      if id in Passed(scenarios) {
        var s :| s in scenarios && s.passed && s.id == id;
        assert s == Scenario(id, true);
      }
    }
  }

  method PushWhen(errors: seq<ShardError>, wrong: bool, error: ShardError) returns (more: seq<ShardError>)
    ensures more == errors + When(wrong, error)
  {
    more := if wrong then errors + [error] else errors;
  }

  lemma ScenarioErrorsSplit(scenarios: seq<Scenario>, k: nat, known: set<Id>)
    requires k < |scenarios|
    ensures ScenarioErrors(scenarios[..k + 1], known)
         == ScenarioErrors(scenarios[..k], known) + OneScenario(scenarios[k], known, Passed(scenarios[..k]))
    ensures Passed(scenarios[..k + 1])
         == Passed(scenarios[..k]) + (if scenarios[k].passed then {scenarios[k].id} else {})
  {
    assert scenarios[..k + 1][..k] == scenarios[..k];
    assert scenarios[..k + 1] == scenarios[..k] + [scenarios[k]];
  }

  /** The scenario loop; `passed` grows along the way and decides what is a duplicate. */
  method ScanScenarios(scenarios: seq<Scenario>, known: set<Id>) returns (errors: seq<ShardError>, passed: set<Id>)
    ensures errors == ScenarioErrors(scenarios, known) && passed == Passed(scenarios)
  {
    errors, passed := [], {};
    for k := 0 to |scenarios|
      invariant errors == ScenarioErrors(scenarios[..k], known)
      invariant passed == Passed(scenarios[..k])
    {
      var s := scenarios[k];
      ScenarioErrorsSplit(scenarios, k, known);
      var found := PushWhen(When(s.id !in known, Unexpected), s.id in passed, Duplicate);
      if s.passed {
        passed := passed + {s.id};
      } else {
        found := found + [Incomplete(s.id)];
      }
      errors := errors + found;
    }
    assert scenarios[..|scenarios|] == scenarios;
  }

  method ScanRequired(shard: Shard, phaseOf: Id -> Option<Phase>, ids: seq<Id>) returns (threw: bool, errors: seq<ShardError>)
    ensures threw <==> exists id | id in ids :: phaseOf(id).None?
    ensures !threw ==> errors == OutsideErrors(shard, phaseOf, ids)
  {
    threw, errors := false, [];
    for k := 0 to |ids|
      invariant forall id | id in ids[..k] :: phaseOf(id).Some?
      invariant errors == OutsideErrors(shard, phaseOf, ids[..k])
    {
      if phaseOf(ids[k]).None? {
        return true, errors;
      }
      assert ids[..k + 1][..k] == ids[..k];
      errors := PushWhen(errors, !Owns(shard, phaseOf, ids[k]), Outside(ids[k]));
    }
    assert ids[..|ids|] == ids;
  }

  method ScanExpected(expected: seq<Id>, passed: set<Id>) returns (errors: seq<ShardError>)
    ensures errors == MissingErrors(expected, passed)
  {
    errors := [];
    for k := 0 to |expected|
      invariant errors == MissingErrors(expected[..k], passed)
    {
      assert expected[..k + 1][..k] == expected[..k];
      errors := PushWhen(errors, expected[k] !in passed, Missing(expected[k]));
    }
    assert expected[..|expected|] == expected;
  }

  method ScanHeader(report: Report, name: string) returns (errors: seq<ShardError>)
    ensures errors == HeaderErrors(report, name)
  {
    errors := ScanIdentity(report.header, name);
    var lists := PushWhen(When(OrEmpty(report.scenarios) == [], NoScenarios),
                          OrEmpty(report.missing) != [], Unexecuted(|OrEmpty(report.missing)|));
    errors := errors + lists;
  }

  method ScanIdentity(h: Header, name: string) returns (errors: seq<ShardError>)
    ensures errors == IdentityErrors(h, name)
  {
    errors := When(h.shard != Some(name), DifferentShard);
    errors := PushWhen(errors, !h.experimental || h.qualificationStatus != Some("not-qualified"), NotDiagnostic);
    errors := PushWhen(errors, h.status != Some("passed") || h.budgetExhausted, NotPassed);
    errors := PushWhen(errors, h.cleanup != Some("passed"), CleanupNotPassed);
  }

  method VerifyShardReport(report: Option<Report>, name: string, suite: seq<Id>, phaseOf: Id -> Option<Phase>)
    returns (verdict: Verdict)
    ensures verdict == Verify(report, name, suite, phaseOf)
  {
    if report.None? {
      return Errors([InvalidReport]);
    }
    var index := IndexOf(name);
    if index.None? {
      return Errors([UnknownShard]);
    }
    var shard, r := SHARDS[index.value], report.value;
    var header := ScanHeader(r, name);
    if exists id | id in suite :: phaseOf(id).None? {
      return Throws;
    }
    var expected := Owned(shard, phaseOf, suite);
    var shared := SharedSetup(shard);
    var scanned, passed := ScanScenarios(OrEmpty(r.scenarios), Known(expected, shared));
    var required := OrEmpty(r.required);
    var threw, outside := ScanRequired(shard, phaseOf, required);
    if threw {
      return Throws;
    }
    var missing := ScanExpected(expected, passed);
    var errors := PushWhen(header + scanned, Differs(required, expected), RequirementsDiffer);
    return Errors(errors + outside + missing + SetupErrors(shared, passed));
  }
}
