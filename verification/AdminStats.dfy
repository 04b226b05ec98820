/** admin.Stats over the GROUP BY of the users table. */
module AdminStats {
  import opened Orders
  import opened Billing
  import opened BillingRuns
  import Plans

  datatype Key = Key(plan: string, status: string)

  /** One row of UserCountByPlan. */
  datatype PlanCount = PlanCount(key: Key, count: nat)

  datatype Stats = Stats(totalUsers: int, byPlan: map<string, int>, activeMRR: real, trialCount: int)

  function KeyOf(row: UserRow): Key { Key(row.plan, row.status) }

  function Count(rows: seq<UserRow>, k: Key): nat {
    if rows == [] then 0 else Count(rows[..|rows| - 1], k) + if KeyOf(rows[|rows| - 1]) == k then 1 else 0
  }

  function SumRows(rows: seq<UserRow>, w: Key -> real): real {
    if rows == [] then 0.0 else SumRows(rows[..|rows| - 1], w) + w(KeyOf(rows[|rows| - 1]))
  }

  function SumGroups(groups: seq<PlanCount>, w: Key -> real): real {
    if groups == [] then 0.0
    else SumGroups(groups[..|groups| - 1], w) + Times(groups[|groups| - 1].count, w(groups[|groups| - 1].key))
  }

  function Times(n: nat, x: real): real { if n == 0 then 0.0 else Times(n - 1, x) + x }

  lemma {:induction false} TimesIsProduct(n: nat, x: real)
    ensures Times(n, x) == n as real * x
  {
    if n > 0 { TimesIsProduct(n - 1, x); }
  }

  /** GROUP BY plan, subscription_status: one non-zero count for each pair that occurs, in any order. */
  ghost predicate IsGroupBy(groups: seq<PlanCount>, rows: seq<UserRow>) {
    && (forall i, j :: 0 <= i < j < |groups| ==> groups[i].key != groups[j].key)
    && (forall i :: 0 <= i < |groups| ==> groups[i].count == Count(rows, groups[i].key) > 0)
    && (forall r :: r in rows ==> exists i :: 0 <= i < |groups| && groups[i].key == KeyOf(r))
  }

  function Excluding(rows: seq<UserRow>, k: Key): seq<UserRow> {
    if rows == [] then []
    else
      var last := rows[|rows| - 1];
      if KeyOf(last) == k then Excluding(rows[..|rows| - 1], k) else Excluding(rows[..|rows| - 1], k) + [last]
  }

  lemma {:induction false} ExcludingMembers(rows: seq<UserRow>, k: Key)
    ensures forall r :: r in Excluding(rows, k) <==> r in rows && KeyOf(r) != k
  {
    if rows != [] {
      ExcludingMembers(rows[..|rows| - 1], k);
      assert rows == rows[..|rows| - 1] + [rows[|rows| - 1]];
    }
  }

  lemma SumRowsAfter(rows: seq<UserRow>, r: UserRow, w: Key -> real)
    ensures SumRows(rows + [r], w) == SumRows(rows, w) + w(KeyOf(r))
  {
    assert (rows + [r])[..|rows|] == rows;
  }

  lemma SumGroupsAfter(groups: seq<PlanCount>, i: nat, w: Key -> real)
    requires i < |groups|
    ensures SumGroups(groups[..i + 1], w) == SumGroups(groups[..i], w) + groups[i].count as real * w(groups[i].key)
  {
    assert groups[..i + 1][..i] == groups[..i];
    TimesIsProduct(groups[i].count, w(groups[i].key));
  }

  lemma {:induction false} ExcludingSum(rows: seq<UserRow>, k: Key, w: Key -> real)
    ensures SumRows(rows, w) == SumRows(Excluding(rows, k), w) + Times(Count(rows, k), w(k))
  {
    if rows != [] {
      var init, last := rows[..|rows| - 1], rows[|rows| - 1];
      ExcludingSum(init, k, w);
      if KeyOf(last) != k { SumRowsAfter(Excluding(init, k), last, w); }
    }
  }

  lemma {:induction false} ExcludingCount(rows: seq<UserRow>, k: Key, other: Key)
    requires other != k
    ensures Count(Excluding(rows, k), other) == Count(rows, other)
  {
    if rows != [] {
      var init, last := rows[..|rows| - 1], rows[|rows| - 1];
      ExcludingCount(init, k, other);
      if KeyOf(last) == k {
        assert Excluding(rows, k) == Excluding(init, k);
      } else {
        assert Excluding(rows, k)[..|Excluding(init, k)|] == Excluding(init, k);
      }
    }
  }

  lemma FirstRow(rows: seq<UserRow>)
    requires rows != []
    ensures rows[0] in rows
  {}

  /** Summing a weight over the groups is summing it over the rows they count. */
  lemma {:induction false} GroupsSumRows(groups: seq<PlanCount>, rows: seq<UserRow>, w: Key -> real)
    requires IsGroupBy(groups, rows)
    ensures SumGroups(groups, w) == SumRows(rows, w)
    decreases |groups|
  {
    if groups == [] {
      if rows != [] { FirstRow(rows); }
    } else {
      var init, last := groups[..|groups| - 1], groups[|groups| - 1];
      var rest := Excluding(rows, last.key);
      ExcludingMembers(rows, last.key);
      ExcludingSum(rows, last.key, w);
      forall i | 0 <= i < |init| ensures init[i].count == Count(rest, init[i].key) {
        assert init[i] == groups[i] && groups[|groups| - 1] == last;
        ExcludingCount(rows, last.key, init[i].key);
      }
      forall r | r in rest ensures exists i :: 0 <= i < |init| && init[i].key == KeyOf(r) {
        var i :| 0 <= i < |groups| && groups[i].key == KeyOf(r);
        assert init[i].key == KeyOf(r);
      }
      GroupsSumRows(init, rest, w);
    }
  }

  // ---- what each figure counts ----

  function One(): Key -> real { (k: Key) => 1.0 }

  function OnPlan(p: string): Key -> real { (k: Key) => if k.plan == p then 1.0 else 0.0 }

  function OnTrial(): Key -> real { (k: Key) => if k.status == TRIALING then 1.0 else 0.0 }

  /** What billing charges an active row each month. */
  function MonthlyCharge(): Key -> real {
    (k: Key) => if k.status == ACTIVE && PlanPrice(k.plan).Some? then PlanPrice(k.plan).value else 0.0
  }

  function CountOf(m: map<string, int>, p: string): int { if p in m then m[p] else 0 }

  /** The figures are sums over the rows themselves. */
  ghost predicate Counts(s: Stats, rows: seq<UserRow>) {
    && s.totalUsers == |rows|
    && (forall p :: CountOf(s.byPlan, p) as real == SumRows(rows, OnPlan(p)))
    && (forall p :: p in s.byPlan <==> exists r :: r in rows && r.plan == p)
    && s.trialCount as real == SumRows(rows, OnTrial())
    && s.activeMRR == SumRows(rows, MonthlyCharge())
  }

  /** The same figures as sums over the groups. */
  ghost predicate Tallied(s: Stats, groups: seq<PlanCount>) {
    && s.totalUsers as real == SumGroups(groups, One())
    && PlansTallied(s.byPlan, groups)
    && s.trialCount as real == SumGroups(groups, OnTrial())
    && s.activeMRR == SumGroups(groups, MonthlyCharge())
  }

  ghost predicate PlansTallied(byPlan: map<string, int>, groups: seq<PlanCount>) {
    && (forall p :: CountOf(byPlan, p) as real == SumGroups(groups, OnPlan(p)))
    && (forall p :: p in byPlan <==> exists g :: g in groups && g.key.plan == p)
  }

  lemma NothingTallied()
    ensures Tallied(Stats(0, map[], 0.0, 0), [])
  {}

  lemma ChargeOf(c: PlanCount)
    ensures c.count as real * MonthlyCharge()(c.key) ==
            if c.key.status != ACTIVE then 0.0
            else if c.key.plan == Plans.PRO then c.count as real * 15.0
            else if c.key.plan == Plans.MAX then c.count as real * 99.0
            else 0.0
  {}

  lemma TotalStep(total: int, groups: seq<PlanCount>, i: nat)
    requires i < |groups| && total as real == SumGroups(groups[..i], One())
    ensures (total + groups[i].count) as real == SumGroups(groups[..i + 1], One())
  {
    hide SumGroups;
    SumGroupsAfter(groups, i, One());
  }

  lemma TrialStep(trials: int, groups: seq<PlanCount>, i: nat)
    requires i < |groups| && trials as real == SumGroups(groups[..i], OnTrial())
    ensures (trials + if groups[i].key.status == TRIALING then groups[i].count else 0) as real ==
            SumGroups(groups[..i + 1], OnTrial())
  {
    hide SumGroups;
    SumGroupsAfter(groups, i, OnTrial());
  }

  lemma PlansStep(byPlan: map<string, int>, groups: seq<PlanCount>, i: nat)
    requires i < |groups| && PlansTallied(byPlan, groups[..i])
    ensures var k := groups[i].key.plan;
            PlansTallied(byPlan[k := CountOf(byPlan, k) + groups[i].count], groups[..i + 1])
  {
    hide SumGroups;
    forall p ensures SumGroups(groups[..i + 1], OnPlan(p)) ==
                     SumGroups(groups[..i], OnPlan(p)) + groups[i].count as real * OnPlan(p)(groups[i].key) {
      SumGroupsAfter(groups, i, OnPlan(p));
    }
    assert groups[..i + 1] == groups[..i] + [groups[i]];
  }

  lemma RevenueStep(revenue: real, groups: seq<PlanCount>, i: nat)
    requires i < |groups| && revenue == SumGroups(groups[..i], MonthlyCharge())
    ensures revenue + groups[i].count as real * MonthlyCharge()(groups[i].key) ==
            SumGroups(groups[..i + 1], MonthlyCharge())
  {
    hide SumGroups, MonthlyCharge;
    SumGroupsAfter(groups, i, MonthlyCharge());
  }

  lemma TallyStep(s: Stats, s': Stats, groups: seq<PlanCount>, i: nat)
    requires i < |groups| && Tallied(s, groups[..i])
    requires s'.totalUsers == s.totalUsers + groups[i].count
    requires s'.byPlan == s.byPlan[groups[i].key.plan := CountOf(s.byPlan, groups[i].key.plan) + groups[i].count]
    requires s'.trialCount == s.trialCount + if groups[i].key.status == TRIALING then groups[i].count else 0
    requires s'.activeMRR == s.activeMRR + groups[i].count as real * MonthlyCharge()(groups[i].key)
    ensures Tallied(s', groups[..i + 1])
  {
    hide MonthlyCharge, One, OnPlan, OnTrial, SumGroups, CountOf, PlansTallied;
    TotalStep(s.totalUsers, groups, i);
    TrialStep(s.trialCount, groups, i);
    PlansStep(s.byPlan, groups, i);
    RevenueStep(s.activeMRR, groups, i);
  }

  lemma TalliedCounts(s: Stats, groups: seq<PlanCount>, rows: seq<UserRow>)
    requires IsGroupBy(groups, rows) && Tallied(s, groups)
    ensures Counts(s, rows)
  {
    GroupsSumRows(groups, rows, One());
    RowCount(rows);
    forall p ensures CountOf(s.byPlan, p) as real == SumRows(rows, OnPlan(p)) {
      GroupsSumRows(groups, rows, OnPlan(p));
    }
    GroupsSumRows(groups, rows, OnTrial());
    GroupsSumRows(groups, rows, MonthlyCharge());
    forall p | p in s.byPlan ensures exists r :: r in rows && r.plan == p {
      var j :| 0 <= j < |groups| && groups[j].key.plan == p;
      CountedRow(rows, groups[j].key);
    }
  }

  /** The loop of Stats. */
  method ComputeStats(groups: seq<PlanCount>, ghost rows: seq<UserRow>) returns (s: Stats)
    requires IsGroupBy(groups, rows)
    ensures Counts(s, rows)
  {
    hide Tallied, MonthlyCharge, SumGroups, SumRows, Counts;
    s := Stats(0, map[], 0.0, 0);
    NothingTallied();
    assert groups[..0] == [];
    for i := 0 to |groups|
      invariant Tallied(s, groups[..i])
    {
      var c := groups[i];
      ghost var before := s;
      s := s.(totalUsers := s.totalUsers + c.count,
              byPlan := s.byPlan[c.key.plan := CountOf(s.byPlan, c.key.plan) + c.count]);
      if c.key.status == TRIALING { s := s.(trialCount := s.trialCount + c.count); }
      if c.key.status == ACTIVE {
        if c.key.plan == Plans.PRO { s := s.(activeMRR := s.activeMRR + c.count as real * 15.0); }
        else if c.key.plan == Plans.MAX { s := s.(activeMRR := s.activeMRR + c.count as real * 99.0); }
      }
      ChargeOf(c);
      TallyStep(before, s, groups, i);
    }
    assert groups[..|groups|] == groups;
    TalliedCounts(s, groups, rows);
  }

  lemma {:induction false} RowCount(rows: seq<UserRow>)
    ensures SumRows(rows, One()) == |rows| as real
  {
    if rows != [] { RowCount(rows[..|rows| - 1]); }
  }

  lemma {:induction false} CountedRow(rows: seq<UserRow>, k: Key)
    requires Count(rows, k) > 0
    ensures exists r :: r in rows && KeyOf(r) == k
  {
    var last := rows[|rows| - 1];
    if KeyOf(last) != k {
      CountedRow(rows[..|rows| - 1], k);
      var r :| r in rows[..|rows| - 1] && KeyOf(r) == k;
      assert r in rows;
    }
  }

  // ---- the figures of a reachable state ----

  /** The rows of a users table, listed by id in any order. */
  function RowsOf(users: map<Uuid, UserRow>, ids: seq<Uuid>): (rows: seq<UserRow>)
    requires forall u :: u in ids ==> u in users
    ensures |rows| == |ids|
  {
    seq(|ids|, i requires 0 <= i < |ids| => users[ids[i]])
  }

  lemma {:induction false} PlansPartition(rows: seq<UserRow>)
    requires forall r :: r in rows ==> StatusAgrees(r)
    ensures SumRows(rows, OnPlan(Plans.FREE)) + SumRows(rows, OnPlan(Plans.PRO))
            + SumRows(rows, OnPlan(Plans.MAX)) + SumRows(rows, OnPlan(Plans.ENTERPRISE)) == |rows| as real
  {
    if rows != [] {
      assert StatusAgrees(rows[|rows| - 1]);
      PlansPartition(rows[..|rows| - 1]);
    }
  }

  lemma {:induction false} DistinctCount(ids: seq<Uuid>)
    requires forall i, j :: 0 <= i < j < |ids| ==> ids[i] != ids[j]
    ensures |set u | u in ids| == |ids|
  {
    if ids != [] {
      var init, last := ids[..|ids| - 1], ids[|ids| - 1];
      assert last !in init;
      DistinctCount(init);
      assert (set u | u in ids) == (set u | u in init) + {last};
    }
  }

  lemma ReachableRowsAgree(rs: seq<Request>, ids: seq<Uuid>)
    requires forall u :: u in ids ==> u in Run(EMPTY_DB, rs).users
    ensures forall r :: r in RowsOf(Run(EMPTY_DB, rs).users, ids) ==> StatusAgrees(r)
  {
    ReachableGood(rs);
  }

  /** When every row's status agrees with its plan, the four plans partition the total. */
  lemma FiguresPartition(s: Stats, rows: seq<UserRow>)
    requires Counts(s, rows) && forall r :: r in rows ==> StatusAgrees(r)
    ensures s.totalUsers ==
            CountOf(s.byPlan, Plans.FREE) + CountOf(s.byPlan, Plans.PRO) + CountOf(s.byPlan, Plans.MAX)
            + CountOf(s.byPlan, Plans.ENTERPRISE)
    ensures s.byPlan.Keys <= {Plans.FREE, Plans.PRO, Plans.MAX, Plans.ENTERPRISE}
  {
    PlansPartition(rows);
    forall p | p in s.byPlan ensures p in {Plans.FREE, Plans.PRO, Plans.MAX, Plans.ENTERPRISE} {
      var r :| r in rows && r.plan == p;
      assert StatusAgrees(r);
    }
  }

  /**
   In every reachable state, for any listing of the users, the figures ComputeStats returns satisfy:
   the total is the number of users and the sum over the four plans.
   */
  lemma ReachableStats(rs: seq<Request>, ids: seq<Uuid>, s: Stats)
    requires forall i, j :: 0 <= i < j < |ids| ==> ids[i] != ids[j]
    requires forall u :: u in ids <==> u in Run(EMPTY_DB, rs).users
    requires Counts(s, RowsOf(Run(EMPTY_DB, rs).users, ids))
    ensures s.totalUsers == |Run(EMPTY_DB, rs).users|
    ensures s.totalUsers ==
            CountOf(s.byPlan, Plans.FREE) + CountOf(s.byPlan, Plans.PRO) + CountOf(s.byPlan, Plans.MAX)
            + CountOf(s.byPlan, Plans.ENTERPRISE)
    ensures s.byPlan.Keys <= {Plans.FREE, Plans.PRO, Plans.MAX, Plans.ENTERPRISE}
  {
    ReachableRowsAgree(rs, ids);
    FiguresPartition(s, RowsOf(Run(EMPTY_DB, rs).users, ids));
    DistinctCount(ids);
    assert (set u | u in ids) == Run(EMPTY_DB, rs).users.Keys;
  }

  /** Every active user of a reachable state is charged a real price, 15 or 99 dollars. */
  lemma ActiveUsersPay(rs: seq<Request>, u: Uuid)
    requires u in Run(EMPTY_DB, rs).users && Run(EMPTY_DB, rs).users[u].status == ACTIVE
    ensures MonthlyCharge()(KeyOf(Run(EMPTY_DB, rs).users[u])) in {15.0, 99.0}
  {
    ReachableGood(rs);
  }
}
