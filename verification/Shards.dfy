/** The diagnostic shards of the native AD CS qualification: which phases a shard runs and
    which scenarios it owns. */
module Shards {
  import opened Wrappers

  datatype Phase =
    | SetupPhase | CleanupPhase
    | Core | Capacity | Renewals | Pending | Templates | Ca | Uncertain | Recovery

  datatype Shard = Shard(name: string, phases: set<Phase>)

  const SHARDS: seq<Shard> := [
    Shard("issuance", {Core}),
    Shard("renewals", {Renewals}),
    Shard("pending-and-ca", {Capacity, Pending, Ca}),
    Shard("templates-and-uncertain", {Templates, Uncertain}),
    Shard("uncertain-recovery", {Recovery})
  ]

  /** The identifier of a scenario; one that is missing or not a text is `None`. */
  type Id = Option<string>

  /** The index of a diagnostic shard; "all" is none. */
  function IndexOf(name: string): (k: Option<nat>)
    ensures k.Some? <==> exists i | 0 <= i < |SHARDS| :: SHARDS[i].name == name
    ensures k.Some? ==> k.value < |SHARDS| && SHARDS[k.value].name == name
  {
    if name == SHARDS[0].name then Some(0)
    else if name == SHARDS[1].name then Some(1)
    else if name == SHARDS[2].name then Some(2)
    else if name == SHARDS[3].name then Some(3)
    else if name == SHARDS[4].name then Some(4)
    else None
  }

  predicate OwnsPhase(shard: Shard, phase: Phase) {
    phase in {SetupPhase, CleanupPhase} || phase in shard.phases
  }

  /** `phaseOf` is the first matching rule; without one, `owns` throws. */
  predicate Owns(shard: Shard, phaseOf: Id -> Option<Phase>, id: Id) {
    phaseOf(id).Some? && OwnsPhase(shard, phaseOf(id).value)
  }

  ghost predicate Assigned(phaseOf: Id -> Option<Phase>, ids: seq<Id>) {
    forall id | id in ids :: phaseOf(id).Some?
  }

  /** The owned scenarios in their order. */
  function Owned(shard: Shard, phaseOf: Id -> Option<Phase>, suite: seq<Id>): (owned: seq<Id>)
    ensures forall id :: id in owned <==> id in suite && Owns(shard, phaseOf, id)
  {
    if suite == [] then []
    else (if Owns(shard, phaseOf, suite[0]) then [suite[0]] else []) + Owned(shard, phaseOf, suite[1..])
  }

  /** The names are different, and none is reserved. */
  lemma NamesAreDistinct(i: nat, j: nat)
    requires i < |SHARDS| && j < |SHARDS| && SHARDS[i].name == SHARDS[j].name
    ensures i == j && SHARDS[i].name != "all" && SHARDS[i].name != "parallel"
  {
    NameStarts(i);
    NameStarts(j);
  }

  lemma NameStarts(i: nat)
    requires i < |SHARDS|
    ensures |SHARDS[i].name| == [8, 8, 14, 23, 18][i]
    ensures SHARDS[i].name[0] == ['i', 'r', 'p', 't', 'u'][i]
  {
  }

  function ShardOf(phase: Phase): (k: nat)
    ensures k < |SHARDS|
  {
    match phase
    case Core => 0
    case Renewals => 1
    case Capacity => 2
    case Pending => 2
    case Ca => 2
    case Templates => 3
    case Uncertain => 3
    case Recovery => 4
    case _ => 0
  }

  /** The shards partition the journey: a phase other than setup and cleanup belongs to
      exactly one of them, and those two to every one. */
  lemma EveryPhaseHasOneShard(phase: Phase, k: nat)
    requires k < |SHARDS|
    ensures OwnsPhase(SHARDS[k], phase) <==> phase.SetupPhase? || phase.CleanupPhase? || k == ShardOf(phase)
  {
  }
}
