/** The effect of a whole sequence of LiqPay deliveries for one order, and of an admin's cancel. */
module BillingCallbacks {
  import opened Wrappers
  import opened Orders
  import opened Billing
  import opened BillingRuns
  import opened Time
  import Plans

  /** One delivery and which of its calls succeed. */
  datatype Delivery = Delivery(cb: Callback, faults: Faults)

  function Deliveries(ds: seq<Delivery>, user: Uuid): (rs: seq<Request>)
    ensures |rs| == |ds|
  {
    seq(|ds|, i requires 0 <= i < |ds| => Deliver(Some(ds[i].cb), user, ds[i].faults))
  }

  /** The lookup and the receipt succeed. */
  predicate IsRecorded(d: Delivery) { d.faults.readOk && d.faults.callOk }

  /** So does the row update, for a status the code acts on. */
  predicate IsActed(d: Delivery) { IsRecorded(d) && d.faults.writeOk && Recognised(d.cb.status) }

  /** The callbacks that reach the row. */
  function Acted(ds: seq<Delivery>): seq<Callback> {
    if ds == [] then []
    else
      var init, last := ds[..|ds| - 1], ds[|ds| - 1];
      if IsActed(last) then Acted(init) + [last.cb] else Acted(init)
  }

  predicate AllSubscribed(cbs: seq<Callback>) { forall i :: 0 <= i < |cbs| ==> cbs[i].status == SUBSCRIBED }

  /** The plan a callback status grants: the order's when paid for or subscribed, Free otherwise. */
  function PlanTold(status: string, planName: string): string {
    if status == SUCCESS || status == SUBSCRIBED then planName else Plans.FREE
  }

  /** The status it leaves: a subscription that was not bought outright is a trial until the first payment. */
  function StatusTold(status: string, flow: string): string {
    if status == SUCCESS then ACTIVE
    else if status != SUBSCRIBED then CANCELED
    else if flow == DIRECT then ACTIVE
    else TRIALING
  }

  /** The row after the deliveries: only the last one that reached it matters, except for the trial end. */
  function FinalRow(row: UserRow, flow: string, planName: string, ds: seq<Delivery>): UserRow {
    var acted := Acted(ds);
    if acted == [] then row
    else
      var status := acted[|acted| - 1].status;
      UserRow(PlanTold(status, planName), StatusTold(status, flow),
              if AllSubscribed(acted) then row.trialEndsAt else None, row.orderId)
  }

  /** One receipt for each delivery that records one, recognised or not, whether or not the row update succeeds. */
  function Receipts(ds: seq<Delivery>, user: Uuid, planName: string): seq<PaymentEvent> {
    if ds == [] then []
    else
      var init, last := ds[..|ds| - 1], ds[|ds| - 1];
      if IsRecorded(last) then Receipts(init, user, planName) + [EventOf(last.cb, user, planName)]
      else Receipts(init, user, planName)
  }

  predicate ForOrder(ds: seq<Delivery>, orderId: string) { forall i :: 0 <= i < |ds| ==> ds[i].cb.orderId == orderId }

  lemma {:induction false} ActedRecognised(ds: seq<Delivery>)
    ensures forall i :: 0 <= i < |Acted(ds)| ==> Recognised(Acted(ds)[i].status)
  {
    if ds != [] { ActedRecognised(ds[..|ds| - 1]); }
  }

  /** What a delivery that reaches the row makes of it. */
  function RowAfter(row: UserRow, flow: string, planName: string, d: Delivery): UserRow {
    if !IsActed(d) then row
    else UserRow(PlanTold(d.cb.status, planName), StatusTold(d.cb.status, flow),
                 if d.cb.status == SUBSCRIBED then row.trialEndsAt else None, row.orderId)
  }

  lemma ActedAfter(ds: seq<Delivery>, d: Delivery)
    ensures Acted(ds + [d]) == if IsActed(d) then Acted(ds) + [d.cb] else Acted(ds)
  {
    assert (ds + [d])[..|ds|] == ds;
  }

  lemma SubscribedAfter(acted: seq<Callback>, cb: Callback)
    ensures AllSubscribed(acted + [cb]) <==> AllSubscribed(acted) && cb.status == SUBSCRIBED
    ensures acted != [] && AllSubscribed(acted) ==> acted[|acted| - 1].status == SUBSCRIBED
    ensures acted == [] ==> AllSubscribed(acted)
  {
    var all := acted + [cb];
    assert all[|acted|] == cb && forall i :: 0 <= i < |acted| ==> all[i] == acted[i];
  }

  lemma FinalRowStep(row: UserRow, flow: string, planName: string, ds: seq<Delivery>, d: Delivery)
    ensures FinalRow(row, flow, planName, ds + [d]) == RowAfter(FinalRow(row, flow, planName, ds), flow, planName, d)
  {
    ActedAfter(ds, d);
    ActedRecognised(ds);
    SubscribedAfter(Acted(ds), d.cb);
    hide Acted, AllSubscribed;
  }

  lemma DeliveriesStep(init: seq<Delivery>, d: Delivery, user: Uuid)
    ensures Deliveries(init + [d], user) == Deliveries(init, user) + [Deliver(Some(d.cb), user, d.faults)]
  {}

  lemma ReceiptsAfter(init: seq<Delivery>, d: Delivery, user: Uuid, planName: string)
    ensures Receipts(init + [d], user, planName) ==
            Receipts(init, user, planName) + if IsRecorded(d) then [EventOf(d.cb, user, planName)] else []
  {
    assert (init + [d])[..|init|] == init;
  }

  lemma FinalRowOrder(row: UserRow, flow: string, planName: string, ds: seq<Delivery>)
    ensures FinalRow(row, flow, planName, ds).orderId == row.orderId
  {}

  /** One delivery for the user's current order. */
  lemma OneDelivery(db: Db, user: Uuid, d: Delivery, flow: string, planName: string)
    requires user in db.users && d.cb.orderId == db.users[user].orderId
             && ParseOrderId(d.cb.orderId) == Some((flow, planName))
    ensures HandleCallback(db, d.cb, user, d.faults).0 ==
            Db(db.users[user := RowAfter(db.users[user], flow, planName, d)],
               db.events + if IsRecorded(d) then [EventOf(d.cb, user, planName)] else [])
  {
    hide ParseOrderId;
    assert db.users[user := db.users[user]] == db.users;
    assert db.events + [] == db.events;
  }

  /** The tables after the deliveries, in closed form. */
  function Delivered(db: Db, user: Uuid, ds: seq<Delivery>, flow: string, planName: string): Db
    requires user in db.users
  {
    Db(db.users[user := FinalRow(db.users[user], flow, planName, ds)], db.events + Receipts(ds, user, planName))
  }

  lemma DeliveredStep(db: Db, user: Uuid, init: seq<Delivery>, d: Delivery, flow: string, planName: string)
    requires user in db.users && d.cb.orderId == db.users[user].orderId
             && ParseOrderId(d.cb.orderId) == Some((flow, planName))
    ensures HandleCallback(Delivered(db, user, init, flow, planName), d.cb, user, d.faults).0 ==
            Delivered(db, user, init + [d], flow, planName)
  {
    hide ParseOrderId, HandleCallback, FinalRow, RowAfter, Receipts;
    var mid := Delivered(db, user, init, flow, planName);
    FinalRowOrder(db.users[user], flow, planName, init);
    OneDelivery(mid, user, d, flow, planName);
    FinalRowStep(db.users[user], flow, planName, init, d);
    ReceiptsAfter(init, d, user, planName);
    var row := FinalRow(db.users[user], flow, planName, init + [d]);
    assert mid.users[user := row] == db.users[user := row];
  }

  lemma NothingDelivered(db: Db, user: Uuid, none: seq<Delivery>, flow: string, planName: string)
    requires user in db.users && none == []
    ensures Delivered(db, user, none, flow, planName) == db && Run(db, Deliveries(none, user)) == db
  {
    assert db.users[user := db.users[user]] == db.users;
  }

  /**
   Closed form: after any deliveries for the user's current order, with whatever failures, the row is
   FinalRow, each delivery that recorded a receipt has added exactly that one, and nothing else has changed.
   */
  lemma {:induction false} DeliveriesClosedForm(db: Db, user: Uuid, ds: seq<Delivery>, flow: string, planName: string)
    requires user in db.users && ForOrder(ds, db.users[user].orderId)
    requires ParseOrderId(db.users[user].orderId) == Some((flow, planName))
    ensures Run(db, Deliveries(ds, user)) == Delivered(db, user, ds, flow, planName)
  {
    hide ParseOrderId, HandleCallback, Delivered, Deliveries, Run;
    if ds == [] {
      NothingDelivered(db, user, ds, flow, planName);
    } else {
      var init, d := ds[..|ds| - 1], ds[|ds| - 1];
      assert ds == init + [d];
      DeliveriesClosedForm(db, user, init, flow, planName);
      DeliveriesStep(init, d, user);
      RunAfter(db, Deliveries(init, user), Deliver(Some(d.cb), user, d.faults));
      DeliveredStep(db, user, init, d, flow, planName);
    }
  }

  lemma FinalRowLast(row: UserRow, flow: string, planName: string, ds: seq<Delivery>)
    requires Acted(ds) != []
    ensures var status := Acted(ds)[|Acted(ds)| - 1].status;
            var final := FinalRow(row, flow, planName, ds);
            final.plan == PlanTold(status, planName) && final.status == StatusTold(status, flow)
  {}

  /** Plan and status depend on the last delivery that reached the row alone. */
  lemma LastDeliveryDecides(db: Db, user: Uuid, ds: seq<Delivery>, ds': seq<Delivery>, flow: string, planName: string)
    requires user in db.users && ForOrder(ds, db.users[user].orderId) && ForOrder(ds', db.users[user].orderId)
    requires ParseOrderId(db.users[user].orderId) == Some((flow, planName))
    requires Acted(ds) != [] && Acted(ds') != []
    requires Acted(ds)[|Acted(ds)| - 1].status == Acted(ds')[|Acted(ds')| - 1].status
    ensures var after, after' := Run(db, Deliveries(ds, user)).users, Run(db, Deliveries(ds', user)).users;
            && user in after && user in after'
            && after[user].plan == after'[user].plan && after[user].status == after'[user].status
  {
    hide ParseOrderId, Run, FinalRow, Acted, PlanTold, StatusTold;
    DeliveriesClosedForm(db, user, ds, flow, planName);
    DeliveriesClosedForm(db, user, ds', flow, planName);
    FinalRowLast(db.users[user], flow, planName, ds);
    FinalRowLast(db.users[user], flow, planName, ds');
  }

  /** The trial end survives exactly while every delivery that reached the row was `subscribed`. */
  lemma TrialEndSurvives(db: Db, user: Uuid, ds: seq<Delivery>, flow: string, planName: string)
    requires user in db.users && ForOrder(ds, db.users[user].orderId) && db.users[user].trialEndsAt.Some?
    requires ParseOrderId(db.users[user].orderId) == Some((flow, planName))
    ensures var after := Run(db, Deliveries(ds, user)).users;
            user in after && after[user].trialEndsAt ==
              (if AllSubscribed(Acted(ds)) then db.users[user].trialEndsAt else None)
  {
    DeliveriesClosedForm(db, user, ds, flow, planName);
    ActedRecognised(ds);
    SubscribedEnd(Acted(ds));
    hide ParseOrderId, Run, Acted, AllSubscribed;
    assert FinalRow(db.users[user], flow, planName, ds).trialEndsAt ==
           if AllSubscribed(Acted(ds)) then db.users[user].trialEndsAt else None;
  }

  lemma SubscribedEnd(acted: seq<Callback>)
    ensures acted == [] ==> AllSubscribed(acted)
    ensures acted != [] && AllSubscribed(acted) ==> acted[|acted| - 1].status == SUBSCRIBED
  {}

  /**
   Delivering the same callback again, after it reached the row, leaves every row as it was and adds one more
   receipt.
   */
  lemma RedeliveryKeepsRows(db: Db, cb: Callback, found: Uuid, f: Faults, again: Faults)
    requires found in db.users && db.users[found].orderId == cb.orderId && ParseOrderId(cb.orderId).Some?
    requires f.readOk && f.callOk && f.writeOk
    ensures var once := HandleCallback(db, cb, found, f).0;
            var twice := HandleCallback(once, cb, found, again).0;
            && twice.users == once.users && |once.events| == |db.events| + 1
            && |twice.events| == |once.events| + if again.readOk && again.callOk then 1 else 0
  {
    hide ParseOrderId;
    var once := HandleCallback(db, cb, found, f).0;
    var twice := HandleCallback(once, cb, found, again).0;
    assert twice.users == once.users[found := twice.users[found]];
  }

  /**
   A delivery returns without error exactly when all it had to do was done: its order was found and parsed, its receipt
   recorded and, for a status the code acts on, the row updated.
   */
  lemma DeliverySucceedsIff(db: Db, cb: Callback, found: Uuid, f: Faults)
    ensures Apply(db, Deliver(Some(cb), found, f)).1 <==>
            && f.readOk && found in db.users && db.users[found].orderId == cb.orderId
            && ParseOrderId(cb.orderId).Some? && f.callOk && (Recognised(cb.status) ==> f.writeOk)
  {
    hide ParseOrderId;
  }

  // ---- superseded orders ----

  /** A delivery whose order id no row carries changes nothing and adds no receipt. */
  lemma SupersededDeliveryDropped(db: Db, cb: Callback, found: Uuid, f: Faults)
    requires NoRowHas(db, cb.orderId)
    ensures Apply(db, Deliver(Some(cb), found, f)) == (db, false)
  {}

  predicate NoRowHas(db: Db, orderId: string) { forall u :: u in db.users ==> db.users[u].orderId != orderId }

  /** The order id a request would write. */
  function Printed(r: Request): Option<string> {
    match r
    case StartTrial(user, now, _) => Some(OrderId(TRIAL, Plans.MAX, user, now / SECOND))
    case Subscribe(user, planName, now, _) => Some(OrderId(DIRECT, planName, user, now / SECOND))
    case _ => None
  }

  predicate NeverPrinted(rs: seq<Request>, orderId: string) {
    forall i :: 0 <= i < |rs| ==> Printed(rs[i]) != Some(orderId)
  }

  lemma StepKeepsAbsent(db: Db, r: Request, orderId: string)
    requires NoRowHas(db, orderId) && orderId != "" && Printed(r) != Some(orderId)
    ensures NoRowHas(Apply(db, r).0, orderId)
  {
    hide OrderId, ParseOrderId;
  }

  lemma {:induction false} RunKeepsAbsent(db: Db, rs: seq<Request>, orderId: string)
    requires NoRowHas(db, orderId) && orderId != "" && NeverPrinted(rs, orderId)
    ensures NoRowHas(Run(db, rs), orderId)
  {
    hide NoRowHas, Printed, Apply;
    if rs != [] {
      assert forall i :: 0 <= i < |rs| - 1 ==> rs[..|rs| - 1][i] == rs[i];
      RunKeepsAbsent(db, rs[..|rs| - 1], orderId);
      StepKeepsAbsent(Run(db, rs[..|rs| - 1]), rs[|rs| - 1], orderId);
    }
  }

  /** A checkout that prints a different order id leaves no row with the user's old one. */
  lemma CheckoutSupersedes(rs: seq<Request>, r: Request, u: Uuid)
    requires u in Run(EMPTY_DB, rs).users && Run(EMPTY_DB, rs).users[u].orderId != ""
    requires ChecksOut(Run(EMPTY_DB, rs), r, u) && Printed(r) != Some(Run(EMPTY_DB, rs).users[u].orderId)
    ensures NoRowHas(Apply(Run(EMPTY_DB, rs), r).0, Run(EMPTY_DB, rs).users[u].orderId)
  {
    var db := Run(EMPTY_DB, rs);
    var db' := Apply(db, r).0;
    forall v | v in db.users && v != u ensures db.users[v].orderId != db.users[u].orderId {
      OrderIdsDistinct(rs, u, v);
    }
    hide Run, OrderId;
  }

  /**
   Once a checkout has replaced a user's order id, and until some later checkout prints it again, every
   delivery for it is dropped.
   */
  lemma SupersededForGood(rs: seq<Request>, r: Request, later: seq<Request>, u: Uuid, cb: Callback, found: Uuid,
                          f: Faults)
    requires u in Run(EMPTY_DB, rs).users && Run(EMPTY_DB, rs).users[u].orderId == cb.orderId != ""
    requires ChecksOut(Run(EMPTY_DB, rs), r, u) && Printed(r) != Some(cb.orderId) && NeverPrinted(later, cb.orderId)
    ensures var db := Run(Apply(Run(EMPTY_DB, rs), r).0, later);
            Apply(db, Deliver(Some(cb), found, f)) == (db, false)
  {
    hide *;
    CheckoutSupersedes(rs, r, u);
    RunKeepsAbsent(Apply(Run(EMPTY_DB, rs), r).0, later, cb.orderId);
    SupersededDeliveryDropped(Run(Apply(Run(EMPTY_DB, rs), r).0, later), cb, found, f);
  }

  /**
   A delivery leaves the tables alone exactly when it finds no row, its order id does not parse, or the receipt
   fails.
   */
  lemma DroppedIff(db: Db, cb: Callback, found: Uuid, f: Faults)
    ensures HandleCallback(db, cb, found, f).0 == db <==>
            !(f.readOk && found in db.users && db.users[found].orderId == cb.orderId && ParseOrderId(cb.orderId).Some?
              && f.callOk)
  {
    hide ParseOrderId;
    var db' := HandleCallback(db, cb, found, f).0;
    if f.readOk && found in db.users && db.users[found].orderId == cb.orderId && ParseOrderId(cb.orderId).Some?
      && f.callOk {
      assert |db'.events| == |db.events| + 1;
    }
  }

  // ---- the admin's cancel ----

  /** An admin cancel frees a paid plan exactly when every call the code makes for this row succeeds. */
  lemma AdminCancelDowngradesIff(db: Db, user: Uuid, f: Faults)
    requires user in db.users && db.users[user].plan != Plans.FREE
    ensures var after := Apply(db, AdminCancel(user, true, f)).0;
            after.users[user].plan == Plans.FREE <==>
            if db.users[user].orderId != "" then f.readOk && f.callOk && f.writeOk else f.writeOk
  {}

  /** A new user who buys Max and is charged. */
  function BuysMax(user: Uuid, now: Instant, cb: Callback): seq<Request> {
    [CreateUser(user)] + [Subscribe(user, Plans.MAX, now, NO_FAULTS)] + [Deliver(Some(cb), user, NO_FAULTS)]
  }

  lemma MaxOrdered(user: Uuid, now: Instant)
    ensures Apply(EMPTY_DB, CreateUser(user)).0 == Db(map[user := NEW_USER], [])
    ensures Apply(Db(map[user := NEW_USER], []), Subscribe(user, Plans.MAX, now, NO_FAULTS)).0 ==
            Db(map[user := UserRow(Plans.FREE, PENDING, None, OrderId(DIRECT, Plans.MAX, user, now / SECOND))], [])
  {
    hide OrderId;
  }

  lemma MaxPaid(user: Uuid, cb: Callback)
    requires cb.status == SUCCESS && ParseOrderId(cb.orderId) == Some((DIRECT, Plans.MAX))
    ensures Apply(Db(map[user := UserRow(Plans.FREE, PENDING, None, cb.orderId)], []),
                  Deliver(Some(cb), user, NO_FAULTS)).0 ==
            Db(map[user := UserRow(Plans.MAX, ACTIVE, None, cb.orderId)], [EventOf(cb, user, Plans.MAX)])
  {
    hide ParseOrderId;
  }

  lemma MaxBought(user: Uuid, now: Instant, cb: Callback)
    requires cb.status == SUCCESS && cb.orderId == OrderId(DIRECT, Plans.MAX, user, now / SECOND)
    ensures Run(EMPTY_DB, BuysMax(user, now, cb)) ==
            Db(map[user := UserRow(Plans.MAX, ACTIVE, None, cb.orderId)], [EventOf(cb, user, Plans.MAX)])
  {
    var none: seq<Request> := [];
    var create, buy := CreateUser(user), Subscribe(user, Plans.MAX, now, NO_FAULTS);
    assert BuysMax(user, now, cb) == none + [create] + [buy] + [Deliver(Some(cb), user, NO_FAULTS)];
    assert Run(EMPTY_DB, none) == EMPTY_DB;
    hide *;
    OrderIdRoundTrip(DIRECT, Plans.MAX, user, now / SECOND);
    RunAfter(EMPTY_DB, none, create);
    RunAfter(EMPTY_DB, none + [create], buy);
    RunAfter(EMPTY_DB, none + [create] + [buy], Deliver(Some(cb), user, NO_FAULTS));
    MaxOrdered(user, now);
    MaxPaid(user, cb);
  }

  lemma OrderIdNotEmpty(flow: string, planName: string, user: Uuid, unix: int)
    ensures OrderId(flow, planName, user, unix) != ""
  {}

  lemma FailedUnsubscribe(db: Db, user: Uuid)
    requires user in db.users && db.users[user].orderId != ""
    ensures Apply(db, AdminCancel(user, true, Faults(true, false, true, true))) == (db, true)
  {}

  /** A user who bought Max keeps it through an admin cancel whose LiqPay call fails, and no error is reported. */
  lemma AdminCancelCanKeepPlan(user: Uuid, now: Instant, cb: Callback)
    requires cb.status == SUCCESS && cb.orderId == OrderId(DIRECT, Plans.MAX, user, now / SECOND)
    ensures var db := Run(EMPTY_DB, BuysMax(user, now, cb));
            && user in db.users && db.users[user].plan == Plans.MAX
            && Apply(db, AdminCancel(user, true, Faults(true, false, true, true))) == (db, true)
  {
    OrderIdNotEmpty(DIRECT, Plans.MAX, user, now / SECOND);
    hide *;
    MaxBought(user, now, cb);
    FailedUnsubscribe(Run(EMPTY_DB, BuysMax(user, now, cb)), user);
  }
}
