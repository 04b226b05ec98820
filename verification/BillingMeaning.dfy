/**
 What a row's status, plan and trial end say about the requests and receipts behind it, in every run without admin
 requests.
 */
module BillingMeaning {
  import opened Wrappers
  import opened Orders
  import opened Billing
  import opened BillingRuns
  import opened BillingCallbacks
  import opened Time
  import Plans

  // ---- what a status says ----

  /** The order was a direct purchase of this plan; such a row never has a trial end. */
  ghost predicate Direct(user: Uuid, row: UserRow, planName: string) {
    && Sellable(DIRECT, planName) && row.trialEndsAt == None
    && exists unix :: row.orderId == OrderId(DIRECT, planName, user, unix)
  }

  /** The order was a trial; its end, while stored, is seven days after the start printed in the order id. */
  ghost predicate Trial(user: Uuid, row: UserRow) {
    exists now :: row.orderId == OrderId(TRIAL, Plans.MAX, user, now / SECOND)
                  && (row.trialEndsAt == None || row.trialEndsAt == Some(now + 7 * DAY))
  }

  /** A receipt with this status for the row's current order and plan. */
  ghost predicate Told(db: Db, user: Uuid, row: UserRow, status: string) {
    exists e :: e in db.events && e.userId == user && e.orderId == row.orderId && e.plan == row.plan
                && e.status == status
  }

  ghost predicate Ordered(user: Uuid, row: UserRow) {
    Direct(user, row, Plans.PRO) || Direct(user, row, Plans.MAX) || Trial(user, row)
  }

  /** A paid subscription: bought outright and subscribed or paid for, or a trial that has been paid for. */
  ghost predicate PaidFor(db: Db, user: Uuid, row: UserRow) {
    && row.trialEndsAt == None
    && ((Direct(user, row, row.plan) && (Told(db, user, row, SUCCESS) || Told(db, user, row, SUBSCRIBED)))
        || (Trial(user, row) && row.plan == Plans.MAX && Told(db, user, row, SUCCESS)))
  }

  /** What each status says. */
  ghost predicate Explained(db: Db, user: Uuid, row: UserRow) {
    if row.status == NO_STATUS then row == NEW_USER && forall e :: e in db.events ==> e.userId != user
    else if row.status == PENDING then
      row.plan == Plans.FREE && Ordered(user, row) && (Trial(user, row) ==> row.trialEndsAt.Some?)
    else if row.status == TRIALING then row.plan == Plans.MAX && Trial(user, row) && Told(db, user, row, SUBSCRIBED)
    else if row.status == ACTIVE then PaidFor(db, user, row)
    else row.status == CANCELED && row.plan == Plans.FREE && row.trialEndsAt == None && Ordered(user, row)
  }

  ghost predicate AllExplained(db: Db) {
    && (forall u :: u in db.users ==> Explained(db, u, db.users[u]))
    && (forall e :: e in db.events ==> e.userId in db.users)
  }

  // ---- order ids ----

  lemma DirectParses(user: Uuid, row: UserRow, planName: string)
    requires Direct(user, row, planName)
    ensures ParseOrderId(row.orderId) == Some((DIRECT, planName)) && row.orderId != ""
  {
    var unix :| row.orderId == OrderId(DIRECT, planName, user, unix);
    NoDots(planName);
    OrderIdRoundTrip(DIRECT, planName, user, unix);
    Printed(DIRECT, planName, user, unix);
    hide OrderId, ParseOrderId;
  }

  lemma NoDots(planName: string)
    requires planName == Plans.PRO || planName == Plans.MAX
    ensures '.' !in planName && '.' !in DIRECT && '.' !in TRIAL && DIRECT != TRIAL
  {
    assert |DIRECT| != |TRIAL|;
  }

  lemma TrialParses(user: Uuid, row: UserRow)
    requires Trial(user, row)
    ensures ParseOrderId(row.orderId) == Some((TRIAL, Plans.MAX)) && row.orderId != ""
  {
    var now :| row.orderId == OrderId(TRIAL, Plans.MAX, user, now / SECOND)
      && (row.trialEndsAt == None || row.trialEndsAt == Some(now + 7 * DAY));
    NoDots(Plans.MAX);
    OrderIdRoundTrip(TRIAL, Plans.MAX, user, now / SECOND);
    Printed(TRIAL, Plans.MAX, user, now / SECOND);
    hide OrderId, ParseOrderId;
  }

  lemma Printed(flow: string, planName: string, user: Uuid, unix: int)
    ensures OrderId(flow, planName, user, unix) != ""
  {
    assert OrderId(flow, planName, user, unix)[0] == 's';
  }

  /** The order a row carries, by flow and plan. */
  lemma OrderParses(user: Uuid, row: UserRow, flow: string, planName: string)
    requires Ordered(user, row) && ParseOrderId(row.orderId) == Some((flow, planName))
    ensures Sellable(flow, planName) && (flow == DIRECT || flow == TRIAL) && DIRECT != TRIAL
    ensures flow == DIRECT ==> Direct(user, row, planName)
    ensures flow == TRIAL ==> Trial(user, row) && planName == Plans.MAX
  {
    hide Direct, Trial, ParseOrderId;
    NoDots(Plans.MAX);
    if Direct(user, row, Plans.PRO) { DirectParses(user, row, Plans.PRO); DirectSells(user, row, Plans.PRO); }
    else if Direct(user, row, Plans.MAX) { DirectParses(user, row, Plans.MAX); DirectSells(user, row, Plans.MAX); }
    else { TrialParses(user, row); }
  }

  lemma DirectSells(user: Uuid, row: UserRow, planName: string)
    requires Direct(user, row, planName)
    ensures Sellable(DIRECT, planName)
  {}

  // ---- one request ----

  lemma MoreTold(db: Db, db': Db, user: Uuid, row: UserRow, status: string)
    requires Told(db, user, row, status) && db.events <= db'.events
    ensures Told(db', user, row, status)
  {
    var e :| e in db.events && e.userId == user && e.orderId == row.orderId && e.plan == row.plan && e.status == status;
    assert e in db'.events;
  }

  /** New receipts of other users, or for a row that has a status, leave what it says alone. */
  lemma StillExplained(db: Db, db': Db, user: Uuid, row: UserRow)
    requires Explained(db, user, row) && db.events <= db'.events
    requires row.status == NO_STATUS ==> forall e :: e in db'.events[|db.events|..] ==> e.userId != user
    ensures Explained(db', user, row)
  {
    hide Direct, Trial, Told;
    if row.status == NO_STATUS {
      assert db'.events == db.events + db'.events[|db.events|..];
    }
    if Told(db, user, row, SUCCESS) { MoreTold(db, db', user, row, SUCCESS); }
    if Told(db, user, row, SUBSCRIBED) { MoreTold(db, db', user, row, SUBSCRIBED); }
  }

  lemma RowsExplained(db: Db, user: Uuid, row: UserRow)
    requires AllExplained(db) && user in db.users && Explained(db, user, row)
    ensures AllExplained(db.(users := db.users[user := row]))
  {
    hide Direct, Trial, Told, Ordered, PaidFor;
    var db' := db.(users := db.users[user := row]);
    forall u | u in db'.users ensures Explained(db', u, db'.users[u]) {
      SameEvents(db, db', u, db'.users[u]);
    }
  }

  lemma SameEvents(db: Db, db': Db, user: Uuid, row: UserRow)
    requires Explained(db, user, row) && db'.events == db.events
    ensures Explained(db', user, row)
  {
    StillExplained(db, db', user, row);
  }

  lemma CheckoutExplained(db: Db, user: Uuid, flow: string, planName: string, now: Instant, f: Faults)
    requires AllExplained(db) && Sellable(flow, planName)
    ensures AllExplained(Checkout(db, user, flow, planName, now, f).0)
  {
    hide AllExplained, OrderId;
    if f.readOk && user in db.users && db.users[user].status == NO_STATUS && f.writeOk {
      EmptyIsNew(db, user);
      var end := if flow == TRIAL then Some(now + TRIAL_DURATION) else None;
      var row := NEW_USER.(orderId := OrderId(flow, planName, user, now / SECOND), status := PENDING,
                           trialEndsAt := end);
      PendingExplained(db, user, row, flow, planName, now);
      RowsExplained(db, user, row);
    }
  }

  lemma EmptyIsNew(db: Db, user: Uuid)
    requires AllExplained(db) && user in db.users && db.users[user].status == NO_STATUS
    ensures db.users[user] == NEW_USER
  {
    hide Direct, Trial, Told, Ordered, PaidFor;
  }

  lemma PendingExplained(db: Db, user: Uuid, row: UserRow, flow: string, planName: string, now: Instant)
    requires Sellable(flow, planName) && row.status == PENDING && row.plan == Plans.FREE
    requires row.orderId == OrderId(flow, planName, user, now / SECOND)
    requires row.trialEndsAt == if flow == TRIAL then Some(now + 7 * DAY) else None
    ensures Explained(db, user, row)
  {
    hide OrderId, Told;
    NoDots(Plans.MAX);
    if flow == DIRECT {
      assert Direct(user, row, planName);
      if Trial(user, row) {
        DirectParses(user, row, planName);
        TrialParses(user, row);
      }
    } else {
      assert Trial(user, row);
    }
  }

  lemma ReceiptTold(db: Db, e: PaymentEvent, user: Uuid, row: UserRow)
    requires e in db.events && e.userId == user && e.orderId == row.orderId && e.plan == row.plan
    ensures Told(db, user, row, e.status)
  {}

  lemma SameOrder(user: Uuid, row: UserRow, row': UserRow, flow: string, planName: string)
    requires Ordered(user, row) && ParseOrderId(row.orderId) == Some((flow, planName))
    requires row'.orderId == row.orderId && (row'.trialEndsAt == row.trialEndsAt || row'.trialEndsAt == None)
    ensures Ordered(user, row')
    ensures flow == DIRECT ==> Direct(user, row', planName)
    ensures flow == TRIAL ==> Trial(user, row') && planName == Plans.MAX
    ensures Sellable(flow, planName) && (flow == DIRECT || flow == TRIAL) && DIRECT != TRIAL
  {
    OrderParses(user, row, flow, planName);
    hide ParseOrderId, OrderId;
    if flow == DIRECT { assert Direct(user, row', planName); } else { assert Trial(user, row'); }
  }

  lemma PaidExplained(db: Db, user: Uuid, row: UserRow)
    requires row.status == ACTIVE && PaidFor(db, user, row)
    ensures Explained(db, user, row)
  {
    hide PaidFor;
  }

  lemma TrialingExplained(db: Db, user: Uuid, row: UserRow)
    requires row.status == TRIALING && row.plan == Plans.MAX && Trial(user, row) && Told(db, user, row, SUBSCRIBED)
    ensures Explained(db, user, row)
  {
    hide Trial, Told;
  }

  lemma OutcomeCases(status: string, flow: string, planName: string, end: Option<Instant>, u: SubUpdate)
    requires Outcome(status, flow, planName, end) == Some(u)
    ensures if status == SUCCESS then u == SubUpdate(planName, ACTIVE, None)
            else if status == SUBSCRIBED then u == SubUpdate(planName, if flow == DIRECT then ACTIVE else TRIALING, end)
            else u == SubUpdate(Plans.FREE, CANCELED, None)
  {}

  /** The row a recognised delivery leaves, its receipt being the last. */
  lemma DeliveredExplained(db: Db, user: Uuid, row: UserRow, e: PaymentEvent, flow: string, u: SubUpdate)
    requires Ordered(user, row) && ParseOrderId(row.orderId) == Some((flow, e.plan))
    requires e in db.events && e.userId == user && e.orderId == row.orderId
    requires Outcome(e.status, flow, e.plan, row.trialEndsAt) == Some(u)
    ensures Explained(db, user, UserRow(u.plan, u.status, u.trialEndsAt, row.orderId))
  {
    OutcomeCases(e.status, flow, e.plan, row.trialEndsAt, u);
    hide Ordered, Trial, Direct, Told, ParseOrderId, Outcome, Explained, OrderId;
    var row' := UserRow(u.plan, u.status, u.trialEndsAt, row.orderId);
    if e.status != SUCCESS && e.status != SUBSCRIBED {
      CanceledExplained(db, user, row, row');
    } else {
      SameOrder(user, row, row', flow, e.plan);
      ReceiptTold(db, e, user, row');
      if flow == DIRECT { NoDirectEnd(user, row, e.plan); }
      if row'.status == ACTIVE { PaidExplained(db, user, row'); } else { TrialingExplained(db, user, row'); }
    }
  }

  lemma NoDirectEnd(user: Uuid, row: UserRow, planName: string)
    requires Ordered(user, row) && ParseOrderId(row.orderId) == Some((DIRECT, planName))
    ensures row.trialEndsAt == None
  {
    OrderParses(user, row, DIRECT, planName);
    hide ParseOrderId, OrderId;
  }

  lemma OrderedWithStatus(db: Db, user: Uuid)
    requires AllExplained(db) && user in db.users && db.users[user].orderId != ""
    ensures Ordered(user, db.users[user]) && db.users[user].status != NO_STATUS
  {
    var row := db.users[user];
    assert Explained(db, user, row);
    hide Direct, Trial, Told, AllExplained;
    if Direct(user, row, row.plan) { DirectSells(user, row, row.plan); }
    NoDots(Plans.MAX);
  }

  lemma RecordedExplained(db: Db, e: PaymentEvent)
    requires AllExplained(db) && e.userId in db.users && db.users[e.userId].status != NO_STATUS
    ensures AllExplained(RecordEvent(db, e))
  {
    hide Explained;
    var db' := RecordEvent(db, e);
    assert db'.events[|db.events|..] == [e];
    forall u | u in db'.users ensures Explained(db', u, db'.users[u]) { StillExplained(db, db', u, db'.users[u]); }
  }

  lemma DeliveryExplained(db: Db, cb: Callback, found: Uuid, f: Faults)
    requires AllExplained(db)
    ensures AllExplained(HandleCallback(db, cb, found, f).0)
  {
    hide AllExplained, Explained, Ordered, ParseOrderId, Outcome;
    var parsed := ParseOrderId(cb.orderId);
    if f.readOk && found in db.users && db.users[found].orderId == cb.orderId && parsed.Some? && f.callOk {
      var (flow, planName) := parsed.value;
      var row, e := db.users[found], EventOf(cb, found, planName);
      NothingParsed(cb.orderId);
      OrderedWithStatus(db, found);
      RecordedExplained(db, e);
      var db1 := RecordEvent(db, e);
      var o := Outcome(cb.status, flow, planName, row.trialEndsAt);
      if o.Some? {
        assert e in db1.events;
        DeliveredExplained(db1, found, row, e, flow, o.value);
        RowsExplained(db1, found, UserRow(o.value.plan, o.value.status, o.value.trialEndsAt, row.orderId));
      }
    }
  }

  lemma NothingParsed(id: string)
    requires ParseOrderId(id).Some?
    ensures id != ""
  {}

  lemma CancelExplained(db: Db, user: Uuid, f: Faults)
    requires AllExplained(db)
    ensures AllExplained(CancelPlan(db, user, f).0)
  {
    hide AllExplained;
    if user in db.users && db.users[user].orderId != "" {
      OrderedWithStatus(db, user);
      var row := UserRow(Plans.FREE, CANCELED, None, db.users[user].orderId);
      CanceledExplained(db, user, db.users[user], row);
      RowsExplained(db, user, row);
    }
  }

  lemma CanceledExplained(db: Db, user: Uuid, row: UserRow, row': UserRow)
    requires Ordered(user, row) && row' == UserRow(Plans.FREE, CANCELED, None, row.orderId)
    ensures Explained(db, user, row')
  {
    hide OrderId, Told;
    if Trial(user, row) { assert Trial(user, row'); }
  }

  lemma CreateExplained(db: Db, user: Uuid)
    requires AllExplained(db) && user !in db.users
    ensures AllExplained(db.(users := db.users[user := NEW_USER]))
  {
    hide Direct, Trial, Told, Ordered, PaidFor;
    var db' := db.(users := db.users[user := NEW_USER]);
    forall u | u in db'.users ensures Explained(db', u, db'.users[u]) {
      if u != user { SameEvents(db, db', u, db.users[u]); }
    }
  }

  lemma ApplyExplained(db: Db, r: Request)
    requires AllExplained(db) && !ByAdmin(r)
    ensures AllExplained(Apply(db, r).0)
  {
    hide AllExplained, Checkout, HandleCallback, CancelPlan;
    match r
    case CreateUser(user) => if user !in db.users { CreateExplained(db, user); }
    case StartTrial(user, now, f) => CheckoutExplained(db, user, TRIAL, Plans.MAX, now, f);
    case Subscribe(user, planName, now, f) =>
      if PlanPrice(planName).Some? { CheckoutExplained(db, user, DIRECT, planName, now, f); }
    case Deliver(decoded, found, f) => if decoded.Some? { DeliveryExplained(db, decoded.value, found, f); }
    case Cancel(user, f) => CancelExplained(db, user, f);
    case _ =>
  }

  /** In every run without admin requests each row's status says what Explained spells out. */
  lemma {:induction false} StatusExplained(rs: seq<Request>)
    requires NoAdmin(rs)
    ensures AllExplained(Run(EMPTY_DB, rs))
  {
    hide Explained;
    if rs != [] {
      StatusExplained(rs[..|rs| - 1]);
      ApplyExplained(Run(EMPTY_DB, rs[..|rs| - 1]), rs[|rs| - 1]);
    }
  }

  /**
   An active row has been paid for, or was bought outright and subscribed; a row that is trialing carries a trial's
   order id and a `subscribed` receipt, and its end, while stored, is seven days after its start.
   */
  lemma ActiveIsPaid(rs: seq<Request>, u: Uuid)
    requires NoAdmin(rs) && u in Run(EMPTY_DB, rs).users
    ensures var db := Run(EMPTY_DB, rs);
            var row := db.users[u];
            row.status == ACTIVE ==>
              Told(db, u, row, SUCCESS)
              || (Told(db, u, row, SUBSCRIBED) && ParseOrderId(row.orderId) == Some((DIRECT, row.plan)))
    ensures var db := Run(EMPTY_DB, rs);
            var row := db.users[u];
            row.status == TRIALING ==>
              && ParseOrderId(row.orderId) == Some((TRIAL, Plans.MAX))
              && Told(db, u, row, SUBSCRIBED) && Trial(u, row)
    ensures var row := Run(EMPTY_DB, rs).users[u];
            row.trialEndsAt.Some? ==> Trial(u, row) && (row.status == PENDING || row.status == TRIALING)
  {
    StatusExplained(rs);
    var db := Run(EMPTY_DB, rs);
    var row := db.users[u];
    assert Explained(db, u, row);
    hide AllExplained, Told, Trial, Direct, Run, ParseOrderId;
    if row.status == ACTIVE && Direct(u, row, row.plan) { DirectParses(u, row, row.plan); }
    if row.status == TRIALING { TrialParses(u, row); }
    if row.trialEndsAt.Some? && Ordered(u, row) { EndOfTrial(u, row); }
  }

  lemma EndOfTrial(user: Uuid, row: UserRow)
    requires Ordered(user, row) && row.trialEndsAt.Some?
    ensures Trial(user, row)
  {}

  // ---- the status follows the latest receipt ----

  function FlowOf(id: string): string { if ParseOrderId(id).Some? then ParseOrderId(id).value.0 else "" }

  /** The status the latest recognised receipt tells; a checkout without one is pending. */
  function LatestTells(db: Db, user: Uuid, id: string): string {
    var e := LatestRecognised(db.events, user);
    if e.None? then PENDING else StatusTold(e.value.status, FlowOf(id))
  }

  predicate Cancels(rs: seq<Request>, user: Uuid) { exists i :: 0 <= i < |rs| && rs[i].Cancel? && rs[i].user == user }

  predicate FollowsTo(db: Db, canceled: bool, user: Uuid, row: UserRow) {
    row.status != NO_STATUS ==>
      row.status == LatestTells(db, user, row.orderId) || (row.status == CANCELED && canceled)
  }

  lemma {:induction false} NoneOfUser(events: seq<PaymentEvent>, user: Uuid)
    requires forall e :: e in events ==> e.userId != user
    ensures LatestRecognised(events, user) == None
  {
    if events != [] {
      assert events[|events| - 1] in events;
      NoneOfUser(events[..|events| - 1], user);
    }
  }

  lemma FollowCheckout(db: Db, user: Uuid, flow: string, planName: string, now: Instant, f: Faults, u: Uuid,
                       canceled: bool)
    requires AllExplained(db) && (u in db.users ==> FollowsTo(db, canceled, u, db.users[u]))
    ensures var db' := Checkout(db, user, flow, planName, now, f).0;
            u in db'.users ==> FollowsTo(db', canceled, u, db'.users[u])
  {
    if user in db.users && db.users[user].status == NO_STATUS {
      assert Explained(db, user, db.users[user]);
      NoneOfUser(db.events, user);
    }
    hide OrderId, FlowOf, LatestRecognised, Explained;
  }

  lemma FollowDelivery(db: Db, cb: Callback, found: Uuid, f: Faults, u: Uuid, canceled: bool)
    requires f.writeOk && (u in db.users ==> FollowsTo(db, canceled, u, db.users[u]))
    ensures var db' := HandleCallback(db, cb, found, f).0;
            u in db'.users ==> FollowsTo(db', canceled, u, db'.users[u])
  {
    hide ParseOrderId, LatestRecognised;
    var parsed := ParseOrderId(cb.orderId);
    if parsed.Some? { LatestAfter(db.events, EventOf(cb, found, parsed.value.1), u); }
  }

  lemma FollowStep(db: Db, r: Request, u: Uuid, canceled: bool)
    requires AllExplained(db) && !ByAdmin(r) && (r.Deliver? ==> r.faults.writeOk)
    requires u in db.users ==> FollowsTo(db, canceled, u, db.users[u])
    ensures var db' := Apply(db, r).0;
            u in db'.users ==> FollowsTo(db', canceled || (r.Cancel? && r.user == u), u, db'.users[u])
  {
    hide AllExplained, LatestTells, Checkout, HandleCallback;
    match r
    case StartTrial(user, now, f) => FollowCheckout(db, user, TRIAL, Plans.MAX, now, f, u, canceled);
    case Subscribe(user, planName, now, f) => FollowCheckout(db, user, DIRECT, planName, now, f, u, canceled);
    case Deliver(decoded, found, f) => if decoded.Some? { FollowDelivery(db, decoded.value, found, f, u, canceled); }
    case _ => FollowOthers(db, r, u, canceled);
  }

  lemma FollowOthers(db: Db, r: Request, u: Uuid, canceled: bool)
    requires r.CreateUser? || r.Cancel?
    requires u in db.users ==> FollowsTo(db, canceled, u, db.users[u])
    ensures var db' := Apply(db, r).0;
            u in db'.users ==> FollowsTo(db', canceled || (r.Cancel? && r.user == u), u, db'.users[u])
  {
    hide LatestRecognised, FlowOf;
  }

  /**
   When no row update fails after its receipt, a row that has a status has the one its user's latest recognised receipt
   tells (pending before the first), unless the user has canceled.
   */
  lemma {:induction false} StatusFollowsReceipts(rs: seq<Request>, u: Uuid)
    requires NoAdmin(rs) && WritesSucceed(rs)
    ensures var db := Run(EMPTY_DB, rs); u in db.users ==> FollowsTo(db, Cancels(rs, u), u, db.users[u])
  {
    hide FollowsTo, AllExplained, Apply;
    if rs != [] {
      var init, r := rs[..|rs| - 1], rs[|rs| - 1];
      StatusFollowsReceipts(init, u);
      StatusExplained(init);
      FollowStep(Run(EMPTY_DB, init), r, u, Cancels(init, u));
      assert Cancels(rs, u) <==> Cancels(init, u) || (r.Cancel? && r.user == u);
    }
  }
}
