/** The retention job: which transactions it deletes, over runs with plan changes. */
module Retention {
  import opened Wrappers
  import opened Orders
  import opened Ledger
  import opened Time
  import Plans

  datatype Tables = Tables(plans: map<Uuid, string>, rows: seq<Row>)

  predicate Expired(plans: map<Uuid, string>, planName: string, cutoff: int, r: Row) {
    r.date < cutoff && r.user in plans && plans[r.user] == planName
  }

  /** TransactionDeleteExpiredForPlan */
  function DeleteExpired(plans: map<Uuid, string>, rows: seq<Row>, planName: string, cutoff: int): seq<Row> {
    if rows == [] then []
    else
      var kept := DeleteExpired(plans, rows[..|rows| - 1], planName, cutoff);
      if Expired(plans, planName, cutoff, rows[|rows| - 1]) then kept else kept + [rows[|rows| - 1]]
  }

  lemma {:induction false} DeletedExactly(plans: map<Uuid, string>, rows: seq<Row>, planName: string, cutoff: int)
    ensures forall r :: r in DeleteExpired(plans, rows, planName, cutoff) <==>
            r in rows && !Expired(plans, planName, cutoff, r)
    ensures |DeleteExpired(plans, rows, planName, cutoff)| <= |rows|
  {
    if rows != [] {
      DeletedExactly(plans, rows[..|rows| - 1], planName, cutoff);
      assert rows == rows[..|rows| - 1] + [rows[|rows| - 1]];
    }
  }

  lemma {:induction false} NothingExpired(plans: map<Uuid, string>, rows: seq<Row>, planName: string, cutoff: int)
    requires forall r :: r in rows ==> !Expired(plans, planName, cutoff, r)
    ensures DeleteExpired(plans, rows, planName, cutoff) == rows
  {
    if rows != [] { NothingExpired(plans, rows[..|rows| - 1], planName, cutoff); }
  }

  /**
   The statements that reach the tables; a sweep is one statement per limited plan, each with its own clock
   reading.
   */
  datatype Event = ChangePlan(user: Uuid, plan: string) | Add(row: Row) | SweepPlan(plan: string, now: int, ok: bool)

  /** The cutoff of one sweep statement: AddDate(0, 0, -days) in a fixed-offset zone. */
  function Cutoff(planName: string, now: int): Option<int> {
    match Plans.RetentionDays(planName) case None => None case Some(days) => Some(now - days * DAY)
  }

  function Next(t: Tables, e: Event): Tables {
    match e
    case ChangePlan(user, planName) => t.(plans := t.plans[user := planName])
    case Add(row) => t.(rows := t.rows + [row])
    case SweepPlan(planName, now, ok) =>
      if !ok || Cutoff(planName, now).None? then t
      else t.(rows := DeleteExpired(t.plans, t.rows, planName, Cutoff(planName, now).value))
  }

  function Run(t: Tables, es: seq<Event>): Tables {
    if es == [] then t else Next(Run(t, es[..|es| - 1]), es[|es| - 1])
  }

  predicate Deletes(t: Tables, e: Event, r: Row) {
    e.SweepPlan? && e.ok && Cutoff(e.plan, e.now).Some? && Expired(t.plans, e.plan, Cutoff(e.plan, e.now).value, r)
  }

  lemma NextKeeps(t: Tables, e: Event, r: Row)
    requires e != Add(r)
    ensures r in Next(t, e).rows <==> r in t.rows && !Deletes(t, e, r)
  {
    if e.SweepPlan? && Cutoff(e.plan, e.now).Some? {
      DeletedExactly(t.plans, t.rows, e.plan, Cutoff(e.plan, e.now).value);
    }
  }

  /** No sweep of the run finds the row expired under its owner's plan of that moment. */
  predicate NeverExpires(t: Tables, es: seq<Event>, r: Row) {
    es != [] ==>
      && NeverExpires(t, es[..|es| - 1], r)
      && !Deletes(Run(t, es[..|es| - 1]), es[|es| - 1], r)
  }

  /** A stored row survives a run exactly when no sweep in it finds the row expired under the plan of that moment. */
  lemma {:induction false} SurvivesIff(t: Tables, es: seq<Event>, r: Row)
    requires r in t.rows && Add(r) !in es
    ensures r in Run(t, es).rows <==> NeverExpires(t, es, r)
  {
    if es != [] {
      SurvivesIff(t, es[..|es| - 1], r);
      NextKeeps(Run(t, es[..|es| - 1]), es[|es| - 1], r);
    }
  }

  /** The owner is on this plan before every event of the run. */
  predicate StaysOn(t: Tables, es: seq<Event>, user: Uuid, planName: string) {
    es != [] ==>
      var plans := Run(t, es[..|es| - 1]).plans;
      user in plans && plans[user] == planName && StaysOn(t, es[..|es| - 1], user, planName)
  }

  /** No statement deletes a row of a user who stays on Pro and dated within the 365 days before each sweep of Pro. */
  lemma {:induction false} ProRowsSurvive(t: Tables, es: seq<Event>, r: Row)
    requires r in t.rows && Add(r) !in es && StaysOn(t, es, r.user, Plans.PRO)
    requires forall e :: e in es && e.SweepPlan? && e.plan == Plans.PRO ==> e.now - 365 * DAY <= r.date
    ensures r in Run(t, es).rows
  {
    if es != [] {
      ProRowsSurvive(t, es[..|es| - 1], r);
      NextKeeps(Run(t, es[..|es| - 1]), es[|es| - 1], r);
    }
  }

  /** No user is ever put on, or taken off, a plan by a sweep. */
  lemma {:induction false} PlansOnlyChanged(t: Tables, es: seq<Event>, user: Uuid)
    requires forall e :: e in es && e.ChangePlan? ==> e.user != user
    ensures user in Run(t, es).plans <==> user in t.plans
    ensures user in t.plans ==> Run(t, es).plans[user] == t.plans[user]
  {
    if es != [] { PlansOnlyChanged(t, es[..|es| - 1], user); }
  }

  /** A row of a user who stays on Free goes with the first statement for Free whose cutoff it lies before. */
  lemma {:induction false} FreeRowsGo(t: Tables, es: seq<Event>, r: Row, e: Event)
    requires Add(r) !in es && e in es && e.SweepPlan? && e.plan == Plans.FREE && e.ok && r.date < e.now - 30 * DAY
    requires StaysOn(t, es, r.user, Plans.FREE)
    ensures r !in Run(t, es).rows
  {
    var init, last := es[..|es| - 1], es[|es| - 1];
    assert es == init + [last];
    NextKeeps(Run(t, init), last, r);
    if e in init { FreeRowsGo(t, init, r, e); }
  }

  /** No sweep deletes a row dated within the 30 days before it, whatever plans change on the way. */
  lemma {:induction false} RecentRowsSurvive(t: Tables, es: seq<Event>, r: Row)
    requires r in t.rows && Add(r) !in es
    requires forall e :: e in es && e.SweepPlan? ==> e.now - 30 * DAY <= r.date
    ensures r in Run(t, es).rows
  {
    if es != [] {
      RecentRowsSurvive(t, es[..|es| - 1], r);
      NextKeeps(Run(t, es[..|es| - 1]), es[|es| - 1], r);
    }
  }

  /** The owner's plan is unlimited before every event of the run. */
  predicate StaysUnlimited(t: Tables, es: seq<Event>, user: Uuid) {
    es != [] ==>
      var plans := Run(t, es[..|es| - 1]).plans;
      user in plans && Plans.RetentionDays(plans[user]).None? && StaysUnlimited(t, es[..|es| - 1], user)
  }

  /** Rows of a user who stays on a plan without a limit are never swept. */
  lemma {:induction false} UnlimitedPlansKeepEverything(t: Tables, es: seq<Event>, r: Row)
    requires r in t.rows && Add(r) !in es && StaysUnlimited(t, es, r.user)
    ensures r in Run(t, es).rows
  {
    if es != [] {
      UnlimitedPlansKeepEverything(t, es[..|es| - 1], r);
      NextKeeps(Run(t, es[..|es| - 1]), es[|es| - 1], r);
    }
  }

  /** One sweep with both statements in a row, at its two clock readings. */
  function Sweep(t: Tables, now1: int, now2: int): Tables {
    Next(Next(t, SweepPlan(Plans.FREE, now1, true)), SweepPlan(Plans.PRO, now2, true))
  }

  lemma SweepExactly(t: Tables, now1: int, now2: int)
    ensures Sweep(t, now1, now2).plans == t.plans
    ensures forall r :: r in Sweep(t, now1, now2).rows <==>
              r in t.rows && !Expired(t.plans, Plans.FREE, now1 - 30 * DAY, r)
                && !Expired(t.plans, Plans.PRO, now2 - 365 * DAY, r)
  {
    DeletedExactly(t.plans, t.rows, Plans.FREE, now1 - 30 * DAY);
    DeletedExactly(t.plans, DeleteExpired(t.plans, t.rows, Plans.FREE, now1 - 30 * DAY), Plans.PRO, now2 - 365 * DAY);
  }

  /**
   One sweep deletes exactly the rows of Free users dated more than 30 days before its first clock reading, and
   those of Pro users dated more than 365 days before its second.
   */
  lemma SweptExactly(t: Tables, now1: int, now2: int, r: Row)
    ensures r in Sweep(t, now1, now2).rows <==>
            && r in t.rows
            && !(r.user in t.plans && t.plans[r.user] == Plans.FREE && r.date < now1 - 30 * DAY)
            && !(r.user in t.plans && t.plans[r.user] == Plans.PRO && r.date < now2 - 365 * DAY)
  {
    SweepExactly(t, now1, now2);
  }

  /**
   Right after a sweep every Free row is within 30 days and every Pro row within 365; sweeping again deletes
   nothing.
   */
  lemma SweepEnforcesWindows(t: Tables, now1: int, now2: int)
    ensures var after := Sweep(t, now1, now2);
            forall r :: r in after.rows && r.user in after.plans ==>
              && (after.plans[r.user] == Plans.FREE ==> r.date >= now1 - 30 * DAY)
              && (after.plans[r.user] == Plans.PRO ==> r.date >= now2 - 365 * DAY)
    ensures Sweep(Sweep(t, now1, now2), now1, now2) == Sweep(t, now1, now2)
  {
    SweepExactly(t, now1, now2);
    var after := Sweep(t, now1, now2);
    NothingExpired(after.plans, after.rows, Plans.FREE, now1 - 30 * DAY);
    NothingExpired(after.plans, after.rows, Plans.PRO, now2 - 365 * DAY);
  }

  /** The job over the shared tables. */
  class Job {
    var plans: map<Uuid, string>
    var rows: seq<Row>

    constructor (plans: map<Uuid, string>, rows: seq<Row>)
      ensures this.plans == plans && this.rows == rows
    {
      this.plans, this.rows := plans, rows;
    }

    /** repository.DeleteExpiredForPlan */
    method DeleteExpiredForPlan(planName: string, cutoff: int, ok: bool) returns (deleted: nat)
      modifies this`rows
      ensures rows == if ok then DeleteExpired(plans, old(rows), planName, cutoff) else old(rows)
      ensures deleted == |old(rows)| - |rows|
    {
      if !ok { return 0; }
      DeletedExactly(plans, rows, planName, cutoff);
      deleted := |rows| - |DeleteExpired(plans, rows, planName, cutoff)|;
      rows := DeleteExpired(plans, rows, planName, cutoff);
    }

    /** sweepOnce: an error on one plan does not stop the other. */
    method SweepOnce(nows: seq<int>, oks: seq<bool>)
      requires |nows| == |oks| == 2
      modifies this`rows
      ensures Tables(plans, rows) ==
              Next(Next(Tables(plans, old(rows)), SweepPlan(Plans.FREE, nows[0], oks[0])),
                   SweepPlan(Plans.PRO, nows[1], oks[1]))
    {
      var limited := [Plans.FREE, Plans.PRO];
      for i := 0 to 2
        invariant Tables(plans, rows) == Run(Tables(plans, old(rows)), Statements(nows, oks)[..i])
      {
        assert Statements(nows, oks)[..i + 1][..i] == Statements(nows, oks)[..i];
        var days := Plans.RetentionDays(limited[i]);
        if days.None? { continue; }
        var _ := DeleteExpiredForPlan(limited[i], nows[i] - days.value * DAY, oks[i]);
      }
      var all := Statements(nows, oks);
      assert all[..2] == all && all[..1][..0] == [] && all[..2][..1] == all[..1];
      var t := Tables(plans, old(rows));
      assert Run(t, all[..0]) == t && Run(t, all[..1]) == Next(t, all[0])
             && Run(t, all) == Next(Run(t, all[..1]), all[1]);
    }
  }

  function Statements(nows: seq<int>, oks: seq<bool>): seq<Event>
    requires |nows| == |oks| == 2
  {
    [SweepPlan(Plans.FREE, nows[0], oks[0]), SweepPlan(Plans.PRO, nows[1], oks[1])]
  }
}
