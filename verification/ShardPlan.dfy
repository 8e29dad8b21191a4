/** The lab matrix of the qualification workflow: which labs a run starts and the numeric
    suffix that keeps their resource groups apart. */
module ShardPlan {
  import opened Wrappers
  import opened Shards

  datatype PlanError = UnsupportedAttempt | UnknownSelection | NotPlain

  datatype Lab = Lab(shard: string, suffix: string, artifactSuffix: string)

  // ----- decimal texts -----

  function Digit(n: nat): (c: char)
    requires n < 10
  {
    '0' + n as char
  }

  function Decimal(n: nat): (text: string)
    ensures text != "" && forall k | 0 <= k < |text| :: '0' <= text[k] <= '9'
  {
    if n < 10 then [Digit(n)] else Decimal(n / 10) + [Digit(n % 10)]
  }

  lemma {:induction false} DecimalIsInjective(m: nat, n: nat)
    requires Decimal(m) == Decimal(n)
    ensures m == n
  {
    LastDigit(m);
    LastDigit(n);
    if m >= 10 && n >= 10 {
      DecimalIsInjective(m / 10, n / 10);
    }
  }

  lemma LastDigit(n: nat)
    ensures var d := Decimal(n);
            && d[|d| - 1] == Digit(n % 10) && d[..|d| - 1] == (if n < 10 then "" else Decimal(n / 10))
  {
  }

  /** What a text of digits means. */
  function Value(text: string): (n: nat)
    requires forall k | 0 <= k < |text| :: '0' <= text[k] <= '9'
  {
    if text == "" then 0 else Value(text[..|text| - 1]) * 10 + (text[|text| - 1] - '0') as nat
  }

  /** The decimal text of a number means that number. */
  lemma {:induction false} DecimalMeans(n: nat)
    ensures Value(Decimal(n)) == n
  {
    LastDigit(n);
    if n >= 10 {
      DecimalMeans(n / 10);
    }
  }

  // ----- the plan -----

  /** The number of a diagnostic lab, and "all" keeps the attempt itself. */
  function Number(attempt: nat, index: nat): (n: nat) {
    attempt * 100 + index + 1
  }

  function LabOf(attempt: nat, index: nat): (lab: Lab)
    requires index < |SHARDS|
  {
    Lab(SHARDS[index].name, Decimal(Number(attempt, index)), "-" + SHARDS[index].name)
  }

  /** `attempt` is the parsed number, if any. */
  function Plan(shard: string, scope: string, fault: string, attempt: Option<int>): (r: Result<seq<Lab>, PlanError>) {
    if attempt.None? || !(1 <= attempt.value <= 99) then Err(UnsupportedAttempt)
    else if shard == "all" then Ok([Lab("all", Decimal(attempt.value), "")])
    else if shard != "parallel" && IndexOf(shard).None? then Err(UnknownSelection)
    else if scope != "comprehensive" || fault != "none" then Err(NotPlain)
    else if shard == "parallel" then
      Ok(seq(|SHARDS|, k requires 0 <= k < |SHARDS| => LabOf(attempt.value, k)))
    else Ok([LabOf(attempt.value, IndexOf(shard).value)])
  }

  // ----- suffixes -----

  ghost predicate Collide(a: nat, i: nat, b: nat, j: nat) {
    Number(a, i) == Number(b, j) && (a != b || i != j)
  }

  /** Two accepted attempts and two shard indices. */
  predicate InRange(a: nat, i: nat, b: nat, j: nat, shards: nat) {
    1 <= a <= 99 && 1 <= b <= 99 && i < shards && j < shards
  }

  /** The numbering keeps the labs of any two attempts apart exactly for up to 100 shards. */
  lemma NumbersAreDistinctExactlyWhen(shards: nat)
    ensures (forall a: nat, i: nat, b: nat, j: nat | InRange(a, i, b, j, shards) :: !Collide(a, i, b, j))
       <==> shards <= 100
  {
    if shards > 100 {
      assert InRange(1, 100, 2, 0, shards) && Collide(1, 100, 2, 0);
    }
  }

  /** Every planned lab is "all" of its attempt, or a diagnostic one with its own number. */
  ghost predicate Planned(lab: Lab, attempt: nat) {
    || lab == Lab("all", Decimal(attempt), "")
    || exists k: nat | k < |SHARDS| :: lab == LabOf(attempt, k)
  }

  lemma PlansArePlanned(shard: string, scope: string, fault: string, attempt: int, lab: Lab)
    requires Plan(shard, scope, fault, Some(attempt)).Ok?
    requires lab in Plan(shard, scope, fault, Some(attempt)).value
    ensures 1 <= attempt <= 99 && Planned(lab, attempt)
  {
    var labs := Plan(shard, scope, fault, Some(attempt)).value;
    var i :| 0 <= i < |labs| && labs[i] == lab;
    if shard != "all" {
      if shard == "parallel" {
        assert lab == LabOf(attempt, i);
      } else {
        assert lab == LabOf(attempt, IndexOf(shard).value);
      }
    }
  }

  /** The labs of any two planned runs, whatever was selected, share a suffix exactly when
      they are the same shard of the same attempt. */
  lemma SuffixIdentifiesTheLab(lab: Lab, a: nat, other: Lab, b: nat)
    requires 1 <= a <= 99 && 1 <= b <= 99 && Planned(lab, a) && Planned(other, b)
    ensures lab.suffix == other.suffix <==> a == b && lab.shard == other.shard
    ensures forall k | 0 <= k < |lab.suffix| :: '0' <= lab.suffix[k] <= '9'
  {
    if lab.shard == "all" {
      AllIsAll(lab, a);
    }
    if other.shard == "all" {
      AllIsAll(other, b);
    }
    if lab.shard != "all" && other.shard != "all" {
      var i: nat :| i < |SHARDS| && lab == LabOf(a, i);
      var j: nat :| j < |SHARDS| && other == LabOf(b, j);
      if lab.suffix == other.suffix {
        DecimalIsInjective(Number(a, i), Number(b, j));
      } else if a == b && lab.shard == other.shard {
        NamesAreDistinct(i, j);
      }
    } else if lab.shard != "all" {
      var i: nat :| i < |SHARDS| && lab == LabOf(a, i);
      if lab.suffix == other.suffix {
        DecimalIsInjective(Number(a, i), b);
      }
    } else if other.shard != "all" {
      var j: nat :| j < |SHARDS| && other == LabOf(b, j);
      if lab.suffix == other.suffix {
        DecimalIsInjective(a, Number(b, j));
      }
    } else if lab.suffix == other.suffix {
      DecimalIsInjective(a, b);
    }
  }

  lemma AllIsAll(lab: Lab, a: nat)
    requires Planned(lab, a) && lab.shard == "all"
    ensures lab == Lab("all", Decimal(a), "")
  {
    if lab != Lab("all", Decimal(a), "") {
      var k: nat :| k < |SHARDS| && lab == LabOf(a, k);
      NamesAreDistinct(k, k);
    }
  }

  /** One selected shard gets the very lab that the parallel selection gives it. */
  lemma SelectionIsPartOfParallel(shard: string, attempt: int)
    requires 1 <= attempt <= 99 && IndexOf(shard).Some?
    ensures var one := Plan(shard, "comprehensive", "none", Some(attempt));
            var many := Plan("parallel", "comprehensive", "none", Some(attempt));
            && one.Ok? && many.Ok? && |many.value| == |SHARDS|
            && one.value == [many.value[IndexOf(shard).value]]
  {
    NamesAreDistinct(IndexOf(shard).value, IndexOf(shard).value);
  }

  /** What is planned and when: attempts 1 to 99, one lab for "all" whatever the scope, and for
      a diagnostic selection of the plain comprehensive scope the selected shards, each once. */
  lemma PlanExactly(shard: string, scope: string, fault: string, attempt: Option<int>)
    ensures var r := Plan(shard, scope, fault, attempt);
            && (r.Err? && r.error == UnsupportedAttempt <==> attempt.None? || attempt.value < 1 || attempt.value > 99)
            && (attempt.Some? && 1 <= attempt.value <= 99 ==>
                && (shard == "all" ==> r == Ok([Lab("all", Decimal(attempt.value), "")]))
                && (shard != "all" && shard != "parallel" && IndexOf(shard).None? ==> r == Err(UnknownSelection))
                && (shard == "parallel" || (shard != "all" && IndexOf(shard).Some?) ==>
                    if scope == "comprehensive" && fault == "none"
                    then r.Ok? && (forall lab | lab in r.value :: lab.artifactSuffix == "-" + lab.shard)
                         && (if shard == "parallel" then |r.value| == 5 && forall k | 0 <= k < 5 :: r.value[k].shard == SHARDS[k].name
                             else |r.value| == 1 && r.value[0].shard == shard)
                    else r == Err(NotPlain)))
  {
    if attempt.Some? && shard == "parallel" {
      assert Plan(shard, scope, fault, attempt).Ok? ==>
          forall k | 0 <= k < 5 :: Plan(shard, scope, fault, attempt).value[k] == LabOf(attempt.value, k);
    }
  }

  /** A diagnostic suffix means a hundred times the attempt and the index from one on; "all" keeps
      the attempt. */
  lemma SuffixMeans(attempt: nat, index: nat)
    requires index < |SHARDS|
    ensures Value(LabOf(attempt, index).suffix) == attempt * 100 + index + 1
    ensures Value(Decimal(attempt)) == attempt
  {
    DecimalMeans(Number(attempt, index));
    DecimalMeans(attempt);
  }
}
