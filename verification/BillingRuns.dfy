/** What every sequence of billing and admin requests keeps, starting from an empty users table. */
module BillingRuns {
  import opened Wrappers
  import opened Orders
  import opened Billing
  import opened Time
  import Plans

  /** Which plans each stored status allows. */
  predicate StatusAgrees(row: UserRow) {
    if row.status == NO_STATUS || row.status == PENDING || row.status == CANCELED then row.plan == Plans.FREE
    else if row.status == TRIALING then row.plan == Plans.MAX
    else if row.status == ACTIVE then row.plan == Plans.PRO || row.plan == Plans.MAX
    else row.status == MANUAL && Plans.IsPlan(row.plan) && row.plan != Plans.FREE
  }

  predicate OwnOrder(row: UserRow, user: Uuid) { row.orderId == "" || Names(row.orderId, user) }

  predicate Good(db: Db) { forall u :: u in db.users ==> OwnOrder(db.users[u], u) && StatusAgrees(db.users[u]) }

  lemma UpdateGood(db: Db, user: Uuid, u: SubUpdate)
    requires Good(db) && user in db.users
    requires StatusAgrees(UserRow(u.plan, u.status, u.trialEndsAt, db.users[user].orderId))
    ensures Good(UpdateSubscription(db, user, u))
  {}

  lemma CreateGood(db: Db, user: Uuid)
    requires Good(db)
    ensures Good(db.(users := db.users[user := NEW_USER]))
  {
    hide Names;
  }

  lemma BeginGood(db: Db, user: Uuid, orderId: string, trialEndsAt: Option<Instant>)
    requires Good(db) && user in db.users && db.users[user].plan == Plans.FREE && Names(orderId, user)
    ensures Good(BeginCheckout(db, user, orderId, trialEndsAt))
  {
    hide Names;
  }

  lemma CheckoutGood(db: Db, user: Uuid, flow: string, planName: string, now: Instant, f: Faults)
    requires Good(db) && Sellable(flow, planName)
    ensures Good(Checkout(db, user, flow, planName, now, f).0)
  {
    OrderIdRoundTrip(flow, planName, user, now / SECOND);
    hide OrderId, Names, ParseOrderId;
    if user in db.users && db.users[user].status == NO_STATUS {
      BeginGood(db, user, OrderId(flow, planName, user, now / SECOND),
                if flow == TRIAL then Some(now + TRIAL_DURATION) else None);
    }
  }

  lemma OutcomeAgrees(cb: Callback, user: Uuid, row: UserRow, flow: string, planName: string)
    requires Names(cb.orderId, user) && ParseOrderId(cb.orderId) == Some((flow, planName))
    ensures Sellable(flow, planName)
    ensures var o := Outcome(cb.status, flow, planName, row.trialEndsAt);
            o.Some? ==> StatusAgrees(UserRow(o.value.plan, o.value.status, o.value.trialEndsAt, row.orderId))
  {}

  lemma DeliveryGood(db: Db, cb: Callback, found: Uuid, f: Faults)
    requires Good(db)
    ensures Good(HandleCallback(db, cb, found, f).0)
  {
    var parsed := ParseOrderId(cb.orderId);
    if found in db.users && db.users[found].orderId == cb.orderId && parsed.Some? {
      var row := db.users[found];
      OutcomeAgrees(cb, found, row, parsed.value.0, parsed.value.1);
      var o := Outcome(cb.status, parsed.value.0, parsed.value.1, row.trialEndsAt);
      if o.Some? { UpdateGood(RecordEvent(db, EventOf(cb, found, parsed.value.1)), found, o.value); }
    }
  }

  /** One request keeps every row's order id its own and its status in agreement with its plan. */
  lemma ApplyGood(db: Db, r: Request)
    requires Good(db)
    ensures Good(Apply(db, r).0)
  {
    hide Good, Checkout, HandleCallback, UpdateSubscription;
    match r
    case CreateUser(user) => CreateGood(db, user);
    case StartTrial(user, now, f) => CheckoutGood(db, user, TRIAL, Plans.MAX, now, f);
    case Subscribe(user, planName, now, f) =>
      if PlanPrice(planName).Some? { CheckoutGood(db, user, DIRECT, planName, now, f); }
    case Deliver(decoded, found, f) => if decoded.Some? { DeliveryGood(db, decoded.value, found, f); }
    case Cancel(user, f) => if user in db.users { UpdateGood(db, user, UNSUBSCRIBE_UPDATE); }
    case SetPlan(user, planName, f) =>
      if user in db.users && Plans.IsPlan(planName) { UpdateGood(db, user, SetPlanUpdate(planName)); }
    case ExtendTrial(user, days, now, f) =>
      if user in db.users { UpdateGood(db, user, ExtendedTrial(db.users[user], days, now)); }
    case AdminCancel(user, _, f) =>
      if user in db.users {
        UpdateGood(db, user, UNSUBSCRIBE_UPDATE);
        UpdateGood(db, user, ADMIN_CANCEL_UPDATE);
      }
  }

  /** Every reachable state: own order ids, and status and plan agree. */
  lemma {:induction false} ReachableGood(rs: seq<Request>)
    ensures Good(Run(EMPTY_DB, rs))
  {
    if rs != [] {
      ReachableGood(rs[..|rs| - 1]);
      ApplyGood(Run(EMPTY_DB, rs[..|rs| - 1]), rs[|rs| - 1]);
    }
  }

  /** No two users of a reachable state share a non-empty order id, although the column is not unique. */
  lemma OrderIdsDistinct(rs: seq<Request>, u: Uuid, v: Uuid)
    ensures var db := Run(EMPTY_DB, rs);
            u in db.users && v in db.users && db.users[u].orderId == db.users[v].orderId != "" ==> u == v
  {
    ReachableGood(rs);
    var db := Run(EMPTY_DB, rs);
    if u in db.users && v in db.users && db.users[u].orderId == db.users[v].orderId != "" {
      NamesOneUser(db.users[u].orderId, u, v);
    }
  }

  /** The user's row, which had no status, is now pending under some order id; nothing else changed. */
  predicate BecomesPending(db: Db, db': Db, user: Uuid) {
    && user in db.users && user in db'.users && db.users[user].status == NO_STATUS
    && var row := db'.users[user];
       row.orderId != "" && row.status == PENDING && row.plan == db.users[user].plan
       && db' == Db(db.users[user := row], db.events)
  }

  /** A checkout writes at most its own user's row, which had no status, and adds no receipt. */
  lemma CheckoutRow(db: Db, user: Uuid, flow: string, planName: string, now: Instant, f: Faults)
    ensures var db' := Checkout(db, user, flow, planName, now, f).0;
            db' == db || BecomesPending(db, db', user)
  {
    var db' := Checkout(db, user, flow, planName, now, f).0;
    assert OrderId(flow, planName, user, now / SECOND)[0] == 's';
  }

  // ---- access is backed by a receipt ----

  predicate ByAdmin(r: Request) { r.SetPlan? || r.ExtendTrial? || r.AdminCancel? }

  predicate NoAdmin(rs: seq<Request>) { forall i :: 0 <= i < |rs| ==> !ByAdmin(rs[i]) }

  /** A receipt for this user's current order that says the current plan was granted. */
  predicate Grants(e: PaymentEvent, user: Uuid, row: UserRow) {
    e.userId == user && e.orderId == row.orderId && e.plan == row.plan
      && (e.status == SUBSCRIBED || e.status == SUCCESS)
  }

  ghost predicate Backed(db: Db) {
    forall u :: u in db.users && db.users[u].plan != Plans.FREE ==>
      exists e :: e in db.events && Grants(e, u, db.users[u])
  }

  lemma ApplyBacked(db: Db, r: Request)
    requires Good(db) && Backed(db) && !ByAdmin(r)
    ensures Backed(Apply(db, r).0)
  {
    var db' := Apply(db, r).0;
    forall u | u in db'.users && db'.users[u].plan != Plans.FREE
      ensures exists e :: e in db'.events && Grants(e, u, db'.users[u])
    {
      if u in db.users && db'.users[u] == db.users[u] {
        var e :| e in db.events && Grants(e, u, db.users[u]);
        EventsOnlyGrow(db, r);
        assert e in db'.events;
      } else {
        PaidByReceipt(db, r, u);
      }
    }
  }

  lemma EventsOnlyGrow(db: Db, r: Request)
    ensures db.events <= Apply(db, r).0.events
  {}

  lemma DeliveryPays(db: Db, cb: Callback, found: Uuid, f: Faults, u: Uuid)
    requires Good(db) && u in HandleCallback(db, cb, found, f).0.users
    requires var db' := HandleCallback(db, cb, found, f).0;
             !(u in db.users && db'.users[u] == db.users[u]) && db'.users[u].plan != Plans.FREE
    ensures var db' := HandleCallback(db, cb, found, f).0; exists e :: e in db'.events && Grants(e, u, db'.users[u])
  {
    hide ParseOrderId;
    var db' := HandleCallback(db, cb, found, f).0;
    assert Grants(db'.events[|db'.events| - 1], u, db'.users[u]);
  }

  /** Without admins, only a recognised delivery for u can write a paid plan, and it has just left the receipt. */
  lemma PaidByReceipt(db: Db, r: Request, u: Uuid)
    requires Good(db) && !ByAdmin(r) && u in Apply(db, r).0.users
    requires !(u in db.users && Apply(db, r).0.users[u] == db.users[u]) && Apply(db, r).0.users[u].plan != Plans.FREE
    ensures exists e :: e in Apply(db, r).0.events && Grants(e, u, Apply(db, r).0.users[u])
  {
    hide Checkout, HandleCallback;
    match r
    case Deliver(decoded, found, f) => if decoded.Some? { DeliveryPays(db, decoded.value, found, f, u); }
    case StartTrial(user, now, f) => CheckoutRow(db, user, TRIAL, Plans.MAX, now, f);
    case Subscribe(user, planName, now, f) => CheckoutRow(db, user, DIRECT, planName, now, f);
    case _ =>
  }

  /** Without admin requests, a plan other than Free always has its granting receipt. */
  lemma {:induction false} AccessIsBacked(rs: seq<Request>)
    requires NoAdmin(rs)
    ensures Backed(Run(EMPTY_DB, rs))
  {
    if rs != [] {
      var db := Run(EMPTY_DB, rs[..|rs| - 1]);
      AccessIsBacked(rs[..|rs| - 1]);
      ReachableGood(rs[..|rs| - 1]);
      ApplyBacked(db, rs[|rs| - 1]);
    }
  }

  /** The latest receipt of this user whose status the code acts on. */
  function LatestRecognised(events: seq<PaymentEvent>, user: Uuid): Option<PaymentEvent> {
    if events == [] then None
    else
      var e := events[|events| - 1];
      if e.userId == user && Recognised(e.status) then Some(e) else LatestRecognised(events[..|events| - 1], user)
  }

  predicate LatestGrantsTo(db: Db, u: Uuid) {
    u in db.users && db.users[u].plan != Plans.FREE ==>
      var e := LatestRecognised(db.events, u);
      e.Some? && Grants(e.value, u, db.users[u])
  }

  predicate LatestGrants(db: Db) { forall u :: u in db.users ==> LatestGrantsTo(db, u) }

  lemma LatestAfter(events: seq<PaymentEvent>, e: PaymentEvent, u: Uuid)
    ensures LatestRecognised(events + [e], u) ==
            if e.userId == u && Recognised(e.status) then Some(e) else LatestRecognised(events, u)
  {
    assert (events + [e])[..|events|] == events;
  }

  predicate WritesSucceed(rs: seq<Request>) { forall i :: 0 <= i < |rs| && rs[i].Deliver? ==> rs[i].faults.writeOk }

  lemma DeliveryLatest(db: Db, cb: Callback, found: Uuid, f: Faults)
    requires Good(db) && LatestGrants(db) && f.writeOk
    ensures LatestGrants(HandleCallback(db, cb, found, f).0)
  {
    var db' := HandleCallback(db, cb, found, f).0;
    var parsed := ParseOrderId(cb.orderId);
    if parsed.Some? {
      forall u | u in db'.users ensures LatestGrantsTo(db', u) {
        LatestAfter(db.events, EventOf(cb, found, parsed.value.1), u);
        assert u in db.users ==> LatestGrantsTo(db, u);
      }
    }
  }

  lemma CheckoutLatest(db: Db, user: Uuid, flow: string, planName: string, now: Instant, f: Faults)
    requires Good(db) && LatestGrants(db)
    ensures LatestGrants(Checkout(db, user, flow, planName, now, f).0)
  {
    CheckoutRow(db, user, flow, planName, now, f);
    var db' := Checkout(db, user, flow, planName, now, f).0;
    forall u | u in db'.users ensures LatestGrantsTo(db', u) {
      assert LatestGrantsTo(db, u);
    }
  }

  lemma OthersLatest(db: Db, r: Request)
    requires LatestGrants(db) && !ByAdmin(r) && !r.Deliver? && !r.StartTrial? && !r.Subscribe?
    ensures LatestGrants(Apply(db, r).0)
  {
    var db' := Apply(db, r).0;
    forall u | u in db'.users ensures LatestGrantsTo(db', u) {
      assert u in db.users ==> LatestGrantsTo(db, u);
    }
  }

  lemma ApplyLatest(db: Db, r: Request)
    requires Good(db) && LatestGrants(db) && !ByAdmin(r) && (r.Deliver? ==> r.faults.writeOk)
    ensures LatestGrants(Apply(db, r).0)
  {
    match r
    case Deliver(decoded, found, f) => if decoded.Some? { DeliveryLatest(db, decoded.value, found, f); }
    case StartTrial(user, now, f) => CheckoutLatest(db, user, TRIAL, Plans.MAX, now, f);
    case Subscribe(user, planName, now, f) => CheckoutLatest(db, user, DIRECT, planName, now, f);
    case _ => OthersLatest(db, r);
  }

  /** When no row update fails after its receipt, the latest recognised receipt is the granting one. */
  lemma {:induction false} LatestReceiptGrants(rs: seq<Request>)
    requires NoAdmin(rs) && WritesSucceed(rs)
    ensures LatestGrants(Run(EMPTY_DB, rs))
  {
    if rs != [] {
      var db := Run(EMPTY_DB, rs[..|rs| - 1]);
      LatestReceiptGrants(rs[..|rs| - 1]);
      ReachableGood(rs[..|rs| - 1]);
      ApplyLatest(db, rs[|rs| - 1]);
    }
  }

  // ---- the number of checkouts ----

  /** r is a checkout by u that reached the row. */
  predicate ChecksOut(db: Db, r: Request, u: Uuid) {
    (r.StartTrial? || r.Subscribe?) && r.user == u && Apply(db, r).0 != db
  }

  function Checkouts(rs: seq<Request>, u: Uuid): nat {
    if rs == [] then 0
    else Checkouts(rs[..|rs| - 1], u) + if ChecksOut(Run(EMPTY_DB, rs[..|rs| - 1]), rs[|rs| - 1], u) then 1 else 0
  }

  /** How often the admin put u back on the Free plan. */
  function Resets(rs: seq<Request>, u: Uuid): nat {
    if rs == [] then 0
    else Resets(rs[..|rs| - 1], u) + if IsReset(Run(EMPTY_DB, rs[..|rs| - 1]), rs[|rs| - 1], u) then 1 else 0
  }

  predicate WithinBudget(db: Db, u: Uuid, checkouts: nat, resets: nat) {
    && (u !in db.users || db.users[u].orderId == "" ==> checkouts == 0)
    && (u in db.users && db.users[u].status == NO_STATUS ==> checkouts <= resets)
    && checkouts <= 1 + resets
  }

  predicate IsReset(db: Db, r: Request, u: Uuid) {
    r.SetPlan? && r.user == u && r.plan == Plans.FREE && Apply(db, r).1
  }

  lemma CheckoutPends(db: Db, r: Request)
    requires r.StartTrial? || r.Subscribe?
    ensures var db' := Apply(db, r).0; db' == db || BecomesPending(db, db', r.user)
  {
    if r.StartTrial? { CheckoutRow(db, r.user, TRIAL, Plans.MAX, r.now, r.faults); }
    else { CheckoutRow(db, r.user, DIRECT, r.plan, r.now, r.faults); }
  }

  lemma BudgetCheckout(db: Db, db': Db, user: Uuid, u: Uuid, checkouts: nat, resets: nat)
    requires WithinBudget(db, u, checkouts, resets)
    requires db' == db || BecomesPending(db, db', user)
    ensures WithinBudget(db', u, checkouts + if user == u && db' != db then 1 else 0, resets)
  {}

  lemma BudgetDelivery(db: Db, r: Request, u: Uuid, checkouts: nat, resets: nat)
    requires r.Deliver? && WithinBudget(db, u, checkouts, resets)
    ensures WithinBudget(Apply(db, r).0, u, checkouts, resets)
  {
    DeliveryKeepsStatus(db, r, u);
  }

  lemma BudgetUpdate(db: Db, r: Request, u: Uuid, checkouts: nat, resets: nat)
    requires !r.StartTrial? && !r.Subscribe? && !r.Deliver? && WithinBudget(db, u, checkouts, resets)
    ensures WithinBudget(Apply(db, r).0, u, checkouts, resets + if IsReset(db, r, u) then 1 else 0)
  {}

  lemma BudgetStep(db: Db, r: Request, u: Uuid, checkouts: nat, resets: nat)
    requires WithinBudget(db, u, checkouts, resets)
    ensures WithinBudget(Apply(db, r).0, u,
              checkouts + if ChecksOut(db, r, u) then 1 else 0, resets + if IsReset(db, r, u) then 1 else 0)
  {
    if r.StartTrial? || r.Subscribe? {
      CheckoutPends(db, r);
      BudgetCheckout(db, Apply(db, r).0, r.user, u, checkouts, resets);
    } else if r.Deliver? {
      BudgetDelivery(db, r, u, checkouts, resets);
    } else {
      BudgetUpdate(db, r, u, checkouts, resets);
    }
  }

  /** A delivery never empties a status and never changes an order id. */
  lemma DeliveryKeepsStatus(db: Db, r: Request, u: Uuid)
    requires r.Deliver?
    ensures var db' := Apply(db, r).0;
            db'.users.Keys == db.users.Keys
            && (u in db.users ==> db'.users[u].orderId == db.users[u].orderId
                                  && (db'.users[u] == db.users[u] || db'.users[u].status != NO_STATUS))
  {}

  lemma {:induction false} Budget(rs: seq<Request>, u: Uuid)
    ensures WithinBudget(Run(EMPTY_DB, rs), u, Checkouts(rs, u), Resets(rs, u))
  {
    if rs != [] {
      var init := rs[..|rs| - 1];
      Budget(init, u);
      BudgetStep(Run(EMPTY_DB, init), rs[|rs| - 1], u, Checkouts(init, u), Resets(init, u));
    }
  }

  /** A request that returns a checkout page has written its row. */
  lemma SuccessfulCheckoutWrites(db: Db, r: Request)
    requires (r.StartTrial? || r.Subscribe?) && Apply(db, r).1
    ensures ChecksOut(db, r, r.user)
    ensures var row := Apply(db, r).0.users[r.user]; Names(row.orderId, r.user) && row.status == PENDING
  {
    if r.StartTrial? { OrderIdRoundTrip(TRIAL, Plans.MAX, r.user, r.now / SECOND); }
    else { OrderIdRoundTrip(DIRECT, r.plan, r.user, r.now / SECOND); }
    assert Apply(db, r).0.users[r.user].status == PENDING != db.users[r.user].status;
  }

  /** A checkout returns its page exactly when it has written its row and the reply goes out. */
  lemma CheckoutReturnsIff(db: Db, r: Request)
    requires r.StartTrial? || r.Subscribe?
    ensures Apply(db, r).1 <==> ChecksOut(db, r, r.user) && r.faults.replyOk
  {
    CheckoutPends(db, r);
    hide OrderId;
    if Apply(db, r).1 { assert Apply(db, r).0.users[r.user].status == PENDING != db.users[r.user].status; }
  }

  /** Each user checks out at most once more than the admin has put them back on Free. */
  lemma CheckoutsBounded(rs: seq<Request>, u: Uuid)
    ensures Checkouts(rs, u) <= 1 + Resets(rs, u)
  {
    Budget(rs, u);
  }

  // ---- when a further checkout is possible ----

  /** A checkout by u whose calls before the redirect succeed. */
  predicate TriesCheckout(r: Request, u: Uuid) {
    && (r.StartTrial? || (r.Subscribe? && PlanPrice(r.plan).Some?))
    && r.user == u && r.faults.readOk && r.faults.writeOk
  }

  /** A request that leaves u's row with a status. */
  predicate Fills(db: Db, r: Request, u: Uuid) {
    match r
    case StartTrial(_, _, _) | Subscribe(_, _, _, _) => ChecksOut(db, r, u)
    case Deliver(decoded, found, f) =>
      found == u && decoded.Some? && f.readOk && f.callOk && f.writeOk && Recognised(decoded.value.status)
      && u in db.users && db.users[u].orderId == decoded.value.orderId && ParseOrderId(decoded.value.orderId).Some?
    case Cancel(user, _) => user == u && Apply(db, r).1
    case SetPlan(user, planName, _) => user == u && planName != Plans.FREE && Apply(db, r).1
    case ExtendTrial(user, _, _, _) => user == u && Apply(db, r).1
    case AdminCancel(user, readOk, f) => user == u && readOk && CancelPlan(db, u, f).1
    case CreateUser(_) => false
  }

  /** Once a row has an order id, only an admin's reset empties its status, and exactly the filling requests fill it. */
  lemma StatusEmptyIff(db: Db, r: Request, u: Uuid)
    requires u in db.users && db.users[u].orderId != ""
    ensures var db' := Apply(db, r).0;
            && u in db'.users && db'.users[u].orderId != ""
            && (db'.users[u].status == NO_STATUS <==>
                IsReset(db, r, u) || (db.users[u].status == NO_STATUS && !Fills(db, r, u)))
  {
    match r
    case StartTrial(_, _, _) => CheckoutPends(db, r);
    case Subscribe(_, _, _, _) => CheckoutPends(db, r);
    case Deliver(_, _, _) => DeliveryFills(db, r, u);
    case _ =>
  }

  lemma DeliveryFills(db: Db, r: Request, u: Uuid)
    requires r.Deliver? && u in db.users
    ensures var db' := Apply(db, r).0;
            && u in db'.users && db'.users[u].orderId == db.users[u].orderId
            && (db'.users[u].status == NO_STATUS <==> db.users[u].status == NO_STATUS && !Fills(db, r, u))
  {
    hide ParseOrderId;
  }

  /** Among the requests that touched u's status, the last was a reset to Free by an admin. */
  predicate ResetSince(rs: seq<Request>, u: Uuid) {
    rs != []
    && var db, r := Run(EMPTY_DB, rs[..|rs| - 1]), rs[|rs| - 1];
       IsReset(db, r, u) || (ResetSince(rs[..|rs| - 1], u) && !Fills(db, r, u))
  }

  lemma {:induction false} EmptyIffResetSince(rs: seq<Request>, u: Uuid)
    requires Checkouts(rs, u) >= 1
    ensures u in Run(EMPTY_DB, rs).users && Run(EMPTY_DB, rs).users[u].orderId != ""
    ensures Run(EMPTY_DB, rs).users[u].status == NO_STATUS <==> ResetSince(rs, u)
  {
    hide Fills, IsReset, Apply;
    var init, r := rs[..|rs| - 1], rs[|rs| - 1];
    var db := Run(EMPTY_DB, init);
    if Checkouts(init, u) >= 1 {
      EmptyIffResetSince(init, u);
      StatusEmptyIff(db, r, u);
    } else {
      NoResetYet(db, r, u);
    }
  }

  lemma NoResetYet(db: Db, r: Request, u: Uuid)
    requires ChecksOut(db, r, u)
    ensures var db' := Apply(db, r).0; u in db'.users && db'.users[u].orderId != "" && db'.users[u].status != NO_STATUS
    ensures !IsReset(db, r, u) && Fills(db, r, u)
  {
    CheckoutPends(db, r);
  }

  /**
   After a first checkout, another one reaches the row exactly when an admin has put the user back on Free
   since, and nothing has given the row a status after that.
   */
  lemma LaterCheckoutIff(rs: seq<Request>, r: Request, u: Uuid)
    requires Checkouts(rs, u) >= 1 && TriesCheckout(r, u)
    ensures ChecksOut(Run(EMPTY_DB, rs), r, u) <==> ResetSince(rs, u)
  {
    EmptyIffResetSince(rs, u);
    hide ResetSince, Run, Checkouts;
    CheckoutWritesIff(Run(EMPTY_DB, rs), r, u);
  }

  lemma CheckoutWritesIff(db: Db, r: Request, u: Uuid)
    requires TriesCheckout(r, u) && u in db.users
    ensures ChecksOut(db, r, u) <==> db.users[u].status == NO_STATUS
  {
    CheckoutPends(db, r);
    hide OrderId;
    if db.users[u].status == NO_STATUS { assert Apply(db, r).0.users[u].status == PENDING; }
  }

  lemma RunAfter(db: Db, rs: seq<Request>, r: Request)
    ensures Run(db, rs + [r]) == Apply(Run(db, rs), r).0
  {
    assert (rs + [r])[..|rs|] == rs;
  }

  lemma CheckoutsAfter(rs: seq<Request>, r: Request, u: Uuid)
    ensures Checkouts(rs + [r], u) == Checkouts(rs, u) + if ChecksOut(Run(EMPTY_DB, rs), r, u) then 1 else 0
  {
    assert (rs + [r])[..|rs|] == rs;
  }

  /** Two trials: the second one after the admin has put the user back on Free. */
  lemma TrialTwice(u: Uuid, now: Instant, later: Instant)
    ensures Checkouts([CreateUser(u), StartTrial(u, now, NO_FAULTS), SetPlan(u, Plans.FREE, NO_FAULTS),
                       StartTrial(u, later, NO_FAULTS)], u) == 2
  {
    hide OrderId;
    var none: seq<Request> := [];
    var one := none + [CreateUser(u)];
    var two := one + [StartTrial(u, now, NO_FAULTS)];
    var three := two + [SetPlan(u, Plans.FREE, NO_FAULTS)];
    RunAfter(EMPTY_DB, none, CreateUser(u));
    CheckoutsAfter(none, CreateUser(u), u);
    RunAfter(EMPTY_DB, one, StartTrial(u, now, NO_FAULTS));
    CheckoutsAfter(one, StartTrial(u, now, NO_FAULTS), u);
    CheckoutWritesIff(Run(EMPTY_DB, one), StartTrial(u, now, NO_FAULTS), u);
    RunAfter(EMPTY_DB, two, SetPlan(u, Plans.FREE, NO_FAULTS));
    CheckoutsAfter(two, SetPlan(u, Plans.FREE, NO_FAULTS), u);
    CheckoutsAfter(three, StartTrial(u, later, NO_FAULTS), u);
    CheckoutWritesIff(Run(EMPTY_DB, three), StartTrial(u, later, NO_FAULTS), u);
    assert three + [StartTrial(u, later, NO_FAULTS)] ==
           [CreateUser(u), StartTrial(u, now, NO_FAULTS), SetPlan(u, Plans.FREE, NO_FAULTS),
            StartTrial(u, later, NO_FAULTS)];
  }
}
