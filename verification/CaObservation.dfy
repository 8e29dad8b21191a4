/** The cross-check of the certification authority's public rows against the requests a
    campaign expects, and the request counts that feed the final proof. */
module CaObservation {
  import opened Wrappers
  import opened LeaseContract

  /** A public row: `leaf` is the SHA-256 of its certificate, `trusted` that the leaf is
      signed by the pinned authority for the expected host. */
  datatype Row = Row(requestId: string, disposition: int, leaf: string, trusted: bool)

  /** A request the campaign made, with the fingerprint of the leaf it received. */
  datatype Expected = Expected(requestId: string, fingerprint: string)

  /** The native facts about the fresh issuance, before its request id is known. */
  datatype FreshFacts = FreshFacts(earlierIds: seq<string>, requestId: Option<string>, fingerprint: string)

  /** `authentic` stands for the scope, the authority's key pin and the revocation list. */
  datatype Observation = Observation(
    observedAt: int, totalRequestCount: int, requesterCount: int, rows: seq<Row>, authentic: bool)

  datatype Summary = Summary(totalRequestCount: int, requestIds: seq<string>)

  predicate Issued(row: Row, e: Expected) {
    row.requestId == e.requestId && row.disposition == 20 && row.leaf == e.fingerprint && row.trusted
  }

  // ----- matching rows to requests -----

  ghost function Indices(rows: seq<Row>, id: string): (s: set<nat>) {
    set j: nat | j < |rows| && rows[j].requestId == id
  }

  /** `f` pairs every expected request with a row of its own, and every row is used. */
  ghost predicate Pairing(f: seq<nat>, rows: seq<Row>, expected: seq<Expected>) {
    && |f| == |expected| == |rows|
    && (forall i | 0 <= i < |f| :: f[i] < |rows| && Issued(rows[f[i]], expected[i]))
    && (forall i, j | 0 <= i < j < |f| :: f[i] != f[j])
    && (forall r | 0 <= r < |rows| :: r in f)
  }

  ghost predicate DistinctIds(expected: seq<Expected>) {
    forall i, j | 0 <= i < j < |expected| :: expected[i].requestId != expected[j].requestId
  }

  /** The only row of a request, as the filter over the rows finds it. */
  method OnlyRow(rows: seq<Row>, id: string) returns (found: Option<nat>)
    ensures found.Some? <==> |Indices(rows, id)| == 1
    ensures found.Some? ==> Indices(rows, id) == {found.value}
  {
    var count: nat := 0;
    var at: nat := 0;
    for j := 0 to |rows|
      invariant Indices(rows[..j], id) == set k: nat | k < j && rows[k].requestId == id
      invariant |Indices(rows[..j], id)| == count
      invariant count > 0 ==> at in Indices(rows[..j], id)
    {
      GrowIndices(rows, j, id);
      if rows[j].requestId == id {
        count, at := count + 1, j;
      }
    }
    assert rows[..|rows|] == rows;
    if count == 1 {
      SingletonSet(Indices(rows, id), at);
      found := Some(at);
    } else {
      found := None;
    }
  }

  lemma GrowIndices(rows: seq<Row>, j: nat, id: string)
    requires j < |rows|
    ensures Indices(rows[..j + 1], id) == Indices(rows[..j], id) + (if rows[j].requestId == id then {j} else {})
    ensures j !in Indices(rows[..j], id)
  {
  }

  lemma SingletonSet(s: set<nat>, x: nat)
    requires x in s && |s| == 1
    ensures s == {x}
  {
    var rest := s - {x};
    assert |rest| == 0;
    assert s == rest + {x};
  }

  /** Every expected request has exactly one row of its id, and that row is right. */
  ghost predicate Matched(rows: seq<Row>, expected: seq<Expected>) {
    && |rows| == |expected|
    && forall i | 0 <= i < |expected| :: OnlyIssued(rows, expected[i])
  }

  ghost predicate OnlyIssued(rows: seq<Row>, e: Expected) {
    exists j: nat :: j < |rows| && Indices(rows, e.requestId) == {j} && Issued(rows[j], e)
  }

  /** The check over the expected requests: it accepts exactly when each has its one row, and
      if their ids differ, exactly when rows and requests correspond one to one with matching
      leaves. */
  method MatchRows(rows: seq<Row>, expected: seq<Expected>) returns (ok: bool, ghost f: seq<nat>)
    ensures ok <==> Matched(rows, expected)
    ensures ok && DistinctIds(expected) ==> Pairing(f, rows, expected)
    ensures DistinctIds(expected) && (exists g: seq<nat> :: Pairing(g, rows, expected)) ==> ok
  {
    f := [];
    if |rows| != |expected| {
      return false, f;
    }
    for i := 0 to |expected|
      invariant |f| == i
      invariant forall k | 0 <= k < i ::
                  f[k] < |rows| && Indices(rows, expected[k].requestId) == {f[k]} && Issued(rows[f[k]], expected[k])
    {
      var found := OnlyRow(rows, expected[i].requestId);
      if found.None? || !Issued(rows[found.value], expected[i]) {
        NotIssued(rows, expected[i], found);
        if DistinctIds(expected) {
          RefusalIsRight(rows, expected, i);
        }
        return false, f;
      }
      f := f + [found.value];
    }
    if DistinctIds(expected) {
      InjectiveIsOnto(f);
    }
    return true, f;
  }

  lemma NotIssued(rows: seq<Row>, e: Expected, found: Option<nat>)
    requires found.Some? <==> |Indices(rows, e.requestId)| == 1
    requires found.Some? ==> Indices(rows, e.requestId) == {found.value} && !Issued(rows[found.value], e)
    ensures !OnlyIssued(rows, e)
  {
    forall j: nat | Indices(rows, e.requestId) == {j}
      ensures found == Some(j)
    {
      assert |{j}| == 1;
      assert j in {found.value};
    }
  }

  /** A matched list is a one-to-one correspondence exactly if its ids differ. */
  lemma MatchedIsPairingExactlyWhen(rows: seq<Row>, expected: seq<Expected>)
    requires Matched(rows, expected)
    ensures (exists f: seq<nat> :: Pairing(f, rows, expected)) <==> DistinctIds(expected)
  {
    if DistinctIds(expected) {
      var f := PartnersOf(rows, expected, |expected|);
      InjectiveIsOnto(f);
      assert Pairing(f, rows, expected);
    } else {
      var i, j :| 0 <= i < j < |expected| && expected[i].requestId == expected[j].requestId;
      forall f: seq<nat> | Pairing(f, rows, expected)
        ensures false
      {
        SameRow(rows, expected[i], f[i], f[j]);
      }
    }
  }

  lemma SameRow(rows: seq<Row>, e: Expected, j: nat, k: nat)
    requires OnlyIssued(rows, e) && j < |rows| && k < |rows|
    requires rows[j].requestId == e.requestId && rows[k].requestId == e.requestId
    ensures j == k
  {
    assert j in Indices(rows, e.requestId) && k in Indices(rows, e.requestId);
  }

  lemma PartnersOf(rows: seq<Row>, expected: seq<Expected>, n: nat) returns (f: seq<nat>)
    requires Matched(rows, expected) && n <= |expected|
    ensures |f| == n
    ensures forall i | 0 <= i < n ::
              f[i] < |rows| && Indices(rows, expected[i].requestId) == {f[i]} && Issued(rows[f[i]], expected[i])
  {
    f := [];
    while |f| < n
      invariant |f| <= n
      invariant forall i | 0 <= i < |f| ::
                  f[i] < |rows| && Indices(rows, expected[i].requestId) == {f[i]} && Issued(rows[f[i]], expected[i])
    {
      var e := expected[|f|];
      assert OnlyIssued(rows, e);
      var j: nat :| j < |rows| && Indices(rows, e.requestId) == {j} && Issued(rows[j], e);
      f := f + [j];
    }
  }

  /** In a pairing the partner of a request is the only row with its id. */
  lemma PartnerIsAlone(g: seq<nat>, rows: seq<Row>, expected: seq<Expected>, i: nat)
    requires DistinctIds(expected) && i < |expected| && Pairing(g, rows, expected)
    ensures Indices(rows, expected[i].requestId) == {g[i]}
  {
    forall k | k in Indices(rows, expected[i].requestId)
      ensures k == g[i]
    {
      assert rows[k].requestId == expected[i].requestId;
      assert k in g;
      var m :| 0 <= m < |g| && g[m] == k;
    }
  }

  lemma RefusalIsRight(rows: seq<Row>, expected: seq<Expected>, i: nat)
    requires DistinctIds(expected) && i < |expected|
    requires forall j: nat | Indices(rows, expected[i].requestId) == {j} :: j >= |rows| || !Issued(rows[j], expected[i])
    ensures !exists g: seq<nat> :: Pairing(g, rows, expected)
  {
    forall g: seq<nat> | Pairing(g, rows, expected)
      ensures false
    {
      PartnerIsAlone(g, rows, expected, i);
    }
  }

  ghost function Range(n: nat): (s: set<nat>)
    ensures |s| == n && forall k: nat :: k in s <==> k < n
  {
    if n == 0 then {} else Range(n - 1) + {n - 1}
  }

  ghost function Elements(f: seq<nat>): (s: set<nat>)
    ensures forall x :: x in s <==> x in f
  {
    set x | x in f
  }

  lemma {:induction false} InjectiveCount(f: seq<nat>)
    requires forall i, j | 0 <= i < j < |f| :: f[i] != f[j]
    ensures |Elements(f)| == |f|
    decreases |f|
  {
    if f != [] {
      var last := |f| - 1;
      InjectiveCount(f[..last]);
      assert Elements(f) == Elements(f[..last]) + {f[last]};
    }
  }

  /** An injection of n indices into n indices misses none. */
  lemma InjectiveIsOnto(f: seq<nat>)
    requires forall i | 0 <= i < |f| :: f[i] < |f|
    requires forall i, j | 0 <= i < j < |f| :: f[i] != f[j]
    ensures forall r: nat | r < |f| :: r in f
  {
    InjectiveCount(f);
    var missing := Range(|f|) - Elements(f);
    assert Elements(f) <= Range(|f|);
    assert |missing| == 0;
    forall r: nat | r < |f|
      ensures r in f
    {
      assert r !in missing;
    }
  }

  // ----- the fresh request -----

  function FreshRows(rows: seq<Row>, fingerprint: string): (s: seq<Row>) {
    if rows == [] then []
    else (if rows[0].leaf == fingerprint then [rows[0]] else []) + FreshRows(rows[1..], fingerprint)
  }

  function ResolveFreshRequestId(rows: seq<Row>, facts: FreshFacts): (r: Result<string, string>) {
    var matched := FreshRows(rows, facts.fingerprint);
    if |rows| != 3 || |matched| != 1 then Err("fresh leaf")
    else
      var id := matched[0].requestId;
      if facts.requestId.Some? && facts.requestId.value != id then Err("fresh id")
      else if id in facts.earlierIds then Err("not distinct")
      else Ok(id)
  }

  ghost function WithLeaf(rows: seq<Row>, fingerprint: string): (s: set<nat>) {
    set j: nat | j < |rows| && rows[j].leaf == fingerprint
  }

  ghost function WithLeafFrom(rows: seq<Row>, fingerprint: string, n: nat): (s: set<nat>) {
    set j: nat | n <= j < |rows| && rows[j].leaf == fingerprint
  }

  lemma {:induction false} FreshRowsFrom(rows: seq<Row>, fingerprint: string, n: nat)
    requires n <= |rows|
    ensures |FreshRows(rows[n..], fingerprint)| == |WithLeafFrom(rows, fingerprint, n)|
    decreases |rows| - n
  {
    if n == |rows| {
      assert WithLeafFrom(rows, fingerprint, n) == {};
    } else {
      FreshRowsFrom(rows, fingerprint, n + 1);
      assert rows[n..][1..] == rows[n + 1..];
      assert WithLeafFrom(rows, fingerprint, n)
          == WithLeafFrom(rows, fingerprint, n + 1) + (if rows[n].leaf == fingerprint then {n} else {});
    }
  }

  lemma {:induction false} FreshRowsAre(rows: seq<Row>, fingerprint: string, row: Row)
    ensures row in FreshRows(rows, fingerprint) <==> row in rows && row.leaf == fingerprint
    decreases |rows|
  {
    if rows != [] {
      FreshRowsAre(rows[1..], fingerprint, row);
      assert rows == [rows[0]] + rows[1..];
    }
  }

  /** The fresh request is found exactly when one of three rows carries the fresh leaf; its id
      must be the one the facts name, if they name one, and none of the earlier ones. */
  lemma FreshExactlyWhen(rows: seq<Row>, facts: FreshFacts)
    ensures ResolveFreshRequestId(rows, facts).Ok? <==>
              exists j: nat :: j < |rows| && FreshAt(rows, facts, j)
    ensures forall j: nat | j < |rows| && FreshAt(rows, facts, j) :: ResolveFreshRequestId(rows, facts) == Ok(rows[j].requestId)
  {
    FreshRowsFrom(rows, facts.fingerprint, 0);
    assert rows[0..] == rows && WithLeafFrom(rows, facts.fingerprint, 0) == WithLeaf(rows, facts.fingerprint);
    var found := FreshRows(rows, facts.fingerprint);
    if |found| == 1 {
      FreshRowsAre(rows, facts.fingerprint, found[0]);
      assert found[0] in found;
      var j: nat :| j < |rows| && rows[j] == found[0];
      assert j in WithLeaf(rows, facts.fingerprint);
      SingletonSet(WithLeaf(rows, facts.fingerprint), j);
      if ResolveFreshRequestId(rows, facts).Ok? {
        assert FreshAt(rows, facts, j);
      }
    }
    forall j: nat | j < |rows| && FreshAt(rows, facts, j)
      ensures ResolveFreshRequestId(rows, facts) == Ok(rows[j].requestId)
    {
      assert j in WithLeaf(rows, facts.fingerprint) && |{j}| == 1;
      FreshRowsAre(rows, facts.fingerprint, rows[j]);
    }
  }

  ghost predicate FreshAt(rows: seq<Row>, facts: FreshFacts, j: nat)
    requires j < |rows|
  {
    && |rows| == 3 && WithLeaf(rows, facts.fingerprint) == {j}
    && facts.requestId in {None, Some(rows[j].requestId)} && rows[j].requestId !in facts.earlierIds
  }

  function Baseline(p: Prepared): (e: seq<Expected>) {
    [Expected(p.predecessor.material.requestId, p.predecessor.material.fingerprint),
     Expected(p.validation.material.requestId, p.validation.material.fingerprint)]
  }

  function Ids(e: seq<Expected>): (ids: seq<string>) {
    seq(|e|, i requires 0 <= i < |e| => e[i].requestId)
  }

  /** The whole check, before the fresh issuance (None) or after it. */
  method VerifyCaPublic(o: Observation, p: Prepared, facts: Option<FreshFacts>) returns (r: Result<Summary, string>)
    ensures r.Ok? <==> Accepts(o, p, facts)
    ensures r.Ok? ==> r.value == Summary(o.totalRequestCount, Ids(ExpectedRequests(o, p, facts)))
  {
    if !VerifyPrepared(p) || !o.authentic || !(p.validation.deadlineAt < o.observedAt < p.lease.hardExpiresAt) {
      return Err("observation");
    }
    var expected := Baseline(p);
    if facts.Some? {
      var id := ResolveFreshRequestId(o.rows, facts.value);
      if id.Err? {
        return Err(id.error);
      }
      expected := expected + [Expected(id.value, facts.value.fingerprint)];
    }
    assert expected == ExpectedRequests(o, p, facts);
    if o.requesterCount != |expected| || o.totalRequestCount != p.counts.deferred + (if facts.Some? then 1 else 0) {
      return Err("counts");
    }
    var ok, f := MatchRows(o.rows, expected);
    if !ok {
      return Err("rows");
    }
    r := Ok(Summary(o.totalRequestCount, seq(|expected|, i requires 0 <= i < |expected| => expected[i].requestId)));
  }

  function ExpectedRequests(o: Observation, p: Prepared, facts: Option<FreshFacts>): (e: seq<Expected>) {
    if facts.None? then Baseline(p)
    else
      var id := ResolveFreshRequestId(o.rows, facts.value);
      if id.Ok? then Baseline(p) + [Expected(id.value, facts.value.fingerprint)] else Baseline(p)
  }

  /** What an accepted observation is: authentic, inside the window between the deadline
      and the hard expiry, with exact counts, and one right row for every request. */
  ghost predicate Accepts(o: Observation, p: Prepared, facts: Option<FreshFacts>) {
    && VerifyPrepared(p) && o.authentic
    && p.validation.deadlineAt < o.observedAt < p.lease.hardExpiresAt
    && (facts.Some? ==> ResolveFreshRequestId(o.rows, facts.value).Ok?)
    && o.totalRequestCount == p.counts.deferred + (if facts.Some? then 1 else 0)
    && o.requesterCount == |ExpectedRequests(o, p, facts)|
    && Matched(o.rows, ExpectedRequests(o, p, facts))
  }

  /** In an accepted observation every expected request has one issued row, with its leaf and
      trusted, and no other row has its id; the counts are those of the preparation, one more
      for a fresh request; and the observation was made after the deadline and under the lease. */
  lemma AcceptedMeans(o: Observation, p: Prepared, facts: Option<FreshFacts>, i: nat)
    requires Accepts(o, p, facts) && i < |ExpectedRequests(o, p, facts)|
    ensures var e := ExpectedRequests(o, p, facts)[i];
            exists j :: 0 <= j < |o.rows|
              && o.rows[j].requestId == e.requestId && o.rows[j].disposition == 20 && o.rows[j].trusted
              && o.rows[j].leaf == e.fingerprint
              && forall k | 0 <= k < |o.rows| && o.rows[k].requestId == e.requestId :: k == j
    ensures o.authentic && p.validation.deadlineAt < o.observedAt < p.lease.createdAt + 115200000
    ensures var more := if facts.Some? then 1 else 0;
            o.requesterCount == |o.rows| == 2 + more && o.totalRequestCount == p.counts.before + 2 + more
  {
    var e := ExpectedRequests(o, p, facts)[i];
    assert OnlyIssued(o.rows, e);
    var j: nat :| j < |o.rows| && Indices(o.rows, e.requestId) == {j} && Issued(o.rows[j], e);
    forall k | 0 <= k < |o.rows| && o.rows[k].requestId == e.requestId
      ensures k == j
    {
      assert k in Indices(o.rows, e.requestId);
    }
  }

  /** The expected requests are the two prepared ones, in this order, and the fresh one. */
  lemma ExpectedMeans(o: Observation, p: Prepared, facts: Option<FreshFacts>)
    requires Accepts(o, p, facts)
    ensures var e := ExpectedRequests(o, p, facts);
            && e[0] == Expected(p.predecessor.material.requestId, p.predecessor.material.fingerprint)
            && e[1] == Expected(p.validation.material.requestId, p.validation.material.fingerprint)
            && (facts.None? ==> |e| == 2)
            && (facts.Some? ==> |e| == 3 && e[2].fingerprint == facts.value.fingerprint
                                && e[2].requestId !in facts.value.earlierIds
                                && facts.value.requestId in {None, Some(e[2].requestId)})
  {
  }

  /** An accepted observation pairs its rows with the requests exactly if the fresh id is new.
      The check compares it with the earlier ids of the native facts, so this is guaranteed
      when they name the prepared requests, which binding the facts ensures. */
  lemma AcceptedIsPairingExactlyWhen(o: Observation, p: Prepared, facts: Option<FreshFacts>)
    requires Accepts(o, p, facts)
    ensures var unused := facts.Some? ==> ResolveFreshRequestId(o.rows, facts.value).value !in Ids(Baseline(p));
            && ((exists f: seq<nat> :: Pairing(f, o.rows, ExpectedRequests(o, p, facts))) <==> unused)
            && (facts.Some? && facts.value.earlierIds == Ids(Baseline(p)) ==> unused)
  {
    var expected := ExpectedRequests(o, p, facts);
    MatchedIsPairingExactlyWhen(o.rows, expected);
    assert Ids(Baseline(p))[0] == Baseline(p)[0].requestId && Ids(Baseline(p))[1] == Baseline(p)[1].requestId;
    if facts.Some? {
      var id := ResolveFreshRequestId(o.rows, facts.value).value;
      assert expected[2].requestId == id;
      if DistinctIds(expected) {
        assert expected[0].requestId != expected[2].requestId && expected[1].requestId != expected[2].requestId;
      }
    }
  }

  // ----- the counts of the final proof -----

  /** The four counts the finalizer assembles. */
  function ProofCounts(p: Prepared, pre: Summary, post: Summary): (counts: seq<int>) {
    [p.counts.before, p.counts.installed, pre.totalRequestCount, post.totalRequestCount]
  }

  predicate VerifyProofCounts(counts: seq<int>) {
    && |counts| == 4
    && (forall i | 0 <= i < 4 :: ValidCount(counts[i]))
    && (forall i | 1 <= i < 4 :: counts[i] == counts[i - 1] + 1)
  }

  /** The counts are always four consecutive numbers; the proof accepts them exactly when
      the count at preparation left room for one more request. */
  lemma CountsAreConsecutive(
    p: Prepared, before: Observation, after: Observation, facts: FreshFacts, pre: Summary, post: Summary)
    requires Accepts(before, p, None) && Accepts(after, p, Some(facts))
    requires pre.totalRequestCount == before.totalRequestCount && post.totalRequestCount == after.totalRequestCount
    ensures var n := p.counts.before; ProofCounts(p, pre, post) == [n, n + 1, n + 2, n + 3]
    ensures VerifyProofCounts(ProofCounts(p, pre, post)) <==> p.counts.deferred < 2048
  {
    var n := p.counts.before;
    assert ProofCounts(p, pre, post)[3] == n + 3;
  }

  // ----- the failing inputs -----

  const LIMIT_IDENTITY: Identity := Identity("", "", "", "", "", "", "", "", "", true)

  /** A receipt whose deferred count is the largest allowed one. */
  const AT_LIMIT: Prepared := Prepared(
    Lease(LIMIT_IDENTITY, Preparing, 0, INITIAL, MAX), 0, 0, 0, MAX + HOUR + 1, Counts(2046, 2047, 2048),
    Preflight(0, 0, 0, 0),
    Validation(Material("v", "v", "v", "v", "v"), 0, DAY),
    Predecessor(Material("c", "c", "c", "c", "c"), DAY + HOUR + 1), "", true)

  /** It is a valid prepared receipt, and no observations ever complete its proof. */
  lemma ValidButNeverProven(before: Observation, after: Observation, facts: FreshFacts, pre: Summary, post: Summary)
    requires Accepts(before, AT_LIMIT, None) && Accepts(after, AT_LIMIT, Some(facts))
    requires pre.totalRequestCount == before.totalRequestCount && post.totalRequestCount == after.totalRequestCount
    ensures VerifyPrepared(AT_LIMIT) && !VerifyProofCounts(ProofCounts(AT_LIMIT, pre, post))
  {
    CountsAreConsecutive(AT_LIMIT, before, after, facts, pre, post);
  }

  lemma LimitIsValid()
    ensures VerifyPrepared(AT_LIMIT) && AT_LIMIT.counts.deferred == 2048
  {
    assert "v" != "c" by {
      assert "v"[0] != "c"[0];
    }
  }

  /** With other earlier ids in the facts an observation is accepted although one of its rows
      belongs to no request. */
  lemma AcceptedWithoutPairing() returns (o: Observation, facts: FreshFacts)
    ensures Accepts(o, AT_LIMIT, Some(facts))
    ensures !exists f: seq<nat> :: Pairing(f, o.rows, ExpectedRequests(o, AT_LIMIT, Some(facts)))
  {
    LimitIsValid();
    var rows := [Row("c", 20, "c", true), Row("v", 20, "v", true), Row("z", 20, "z", true)];
    facts := FreshFacts([], None, "c");
    o := Observation(DAY + 1, 2049, 3, rows, true);
    assert "v"[0] != "c"[0] && "z"[0] != "c"[0] && "z"[0] != "v"[0];
    FreshOfThree(rows, "c");
    assert ResolveFreshRequestId(rows, facts) == Ok("c");
    var expected := ExpectedRequests(o, AT_LIMIT, Some(facts));
    assert expected == [Expected("c", "c"), Expected("v", "v"), Expected("c", "c")];
    assert Indices(rows, "c") == {0} && Indices(rows, "v") == {1};
    assert OnlyIssued(rows, expected[0]) && OnlyIssued(rows, expected[1]) && OnlyIssued(rows, expected[2]);
    AcceptedIsPairingExactlyWhen(o, AT_LIMIT, Some(facts));
    assert Ids(Baseline(AT_LIMIT))[0] == "c";
  }

  lemma FreshOfThree(rows: seq<Row>, fingerprint: string)
    requires |rows| == 3 && rows[0].leaf == fingerprint && rows[1].leaf != fingerprint && rows[2].leaf != fingerprint
    ensures FreshRows(rows, fingerprint) == [rows[0]]
  {
    assert FreshRows(rows[2..], fingerprint) == [];
    assert rows[1..][1..] == rows[2..];
  }
}
