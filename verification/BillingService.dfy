/** The billing and admin services over the stored tables, each method proved against Billing.Apply. */
module BillingService {
  import opened Wrappers
  import opened Orders
  import opened Billing
  import opened Time
  import Plans

  /** internal/repository/user.go and payment.go: one SQL statement a method. */
  class Store {
    var users: map<Uuid, UserRow>
    var events: seq<PaymentEvent>

    function Tables(): Db
      reads this
    {
      Db(users, events)
    }

    constructor ()
      ensures Tables() == EMPTY_DB
    {
      users, events := map[], [];
    }

    method GetByID(user: Uuid, ok: bool) returns (row: Option<UserRow>)
      ensures row == if ok && user in users then Some(users[user]) else None
    {
      row := if ok && user in users then Some(users[user]) else None;
    }

    /** The column is not unique: the database may return any row that carries the id. */
    method GetByLiqPayOrderID(orderId: string, ok: bool) returns (found: Option<Uuid>)
      ensures found.Some? ==> ok && found.value in users && users[found.value].orderId == orderId
      ensures found.None? ==> !ok || forall u :: u in users ==> users[u].orderId != orderId
    {
      var matching := set u | u in users && users[u].orderId == orderId;
      if !ok || matching == {} {
        assert ok ==> forall u :: u in users && users[u].orderId == orderId ==> u in matching;
        return None;
      }
      var u :| u in matching;
      found := Some(u);
    }

    method BeginCheckout(user: Uuid, orderId: string, trialEndsAt: Option<Instant>, ok: bool) returns (done: bool)
      modifies this`users
      ensures done == (ok && old(user in users))
      ensures Tables() == if done then Billing.BeginCheckout(old(Tables()), user, orderId, trialEndsAt)
              else old(Tables())
    {
      done := ok && user in users;
      if done {
        users := users[user := users[user].(orderId := orderId, status := PENDING, trialEndsAt := trialEndsAt)];
      }
    }

    method UpdateSubscription(user: Uuid, u: SubUpdate, ok: bool) returns (done: bool)
      modifies this`users
      ensures done == (ok && old(user in users))
      ensures Tables() == if done then Billing.UpdateSubscription(old(Tables()), user, u) else old(Tables())
    {
      done := ok && user in users;
      if done {
        users := users[user := users[user].(plan := u.plan, status := u.status, trialEndsAt := u.trialEndsAt)];
      }
    }

    method CreatePaymentEvent(e: PaymentEvent, ok: bool)
      modifies this`events
      ensures Tables() == if ok then RecordEvent(old(Tables()), e) else old(Tables())
    {
      if ok { events := events + [e]; }
    }
  }

  class Service {
    const store: Store

    constructor (store: Store)
      ensures this.store == store
    {
      this.store := store;
    }

    /** StartTrial. */
    method StartTrial(user: Uuid, now: Instant, f: Faults) returns (ok: bool)
      modifies store
      ensures (store.Tables(), ok) == Apply(old(store.Tables()), Request.StartTrial(user, now, f))
    {
      var row := store.GetByID(user, f.readOk);
      if row.None? || row.value.status != NO_STATUS { return false; }
      var id := OrderId(TRIAL, Plans.MAX, user, now / SECOND);
      var recorded := store.BeginCheckout(user, id, Some(now + TRIAL_DURATION), f.writeOk);
      ok := recorded && f.replyOk;
    }

    /** Subscribe. */
    method Subscribe(user: Uuid, planName: string, now: Instant, f: Faults) returns (ok: bool)
      modifies store
      ensures (store.Tables(), ok) == Apply(old(store.Tables()), Request.Subscribe(user, planName, now, f))
    {
      if PlanPrice(planName).None? { return false; }
      var row := store.GetByID(user, f.readOk);
      if row.None? || row.value.status != NO_STATUS { return false; }
      var id := OrderId(DIRECT, planName, user, now / SECOND);
      var recorded := store.BeginCheckout(user, id, None, f.writeOk);
      ok := recorded && f.replyOk;
    }

    /** HandleCallback; `decoded` is what VerifyAndDecode returned and `found` the row the lookup chose. */
    method HandleCallback(decoded: Option<Callback>, f: Faults) returns (ok: bool, ghost found: Uuid)
      modifies store
      ensures (store.Tables(), ok) == Apply(old(store.Tables()), Deliver(decoded, found, f))
      ensures decoded.Some? && f.readOk && (exists u :: u in old(store.users)
                                              && old(store.users)[u].orderId == decoded.value.orderId)
              ==> found in old(store.users) && old(store.users)[found].orderId == decoded.value.orderId
    {
      found := NIL;
      if decoded.None? { return false, NIL; }
      var cb := decoded.value;
      var owner := store.GetByLiqPayOrderID(cb.orderId, f.readOk);
      if owner.None? { return false, NIL; }
      found := owner.value;
      var parsed := ParseOrderId(cb.orderId);
      if parsed.None? { return false, found; }
      var row := store.users[owner.value];
      store.CreatePaymentEvent(EventOf(cb, owner.value, parsed.value.1), f.callOk);
      if !f.callOk { return false, found; }
      var outcome := Outcome(cb.status, parsed.value.0, parsed.value.1, row.trialEndsAt);
      if outcome.None? { return true, found; }
      ok := store.UpdateSubscription(owner.value, outcome.value, f.writeOk);
    }

    /** Cancel. */
    method Cancel(user: Uuid, f: Faults) returns (ok: bool)
      modifies store
      ensures (store.Tables(), ok) == Apply(old(store.Tables()), Request.Cancel(user, f))
    {
      var row := store.GetByID(user, f.readOk);
      if row.None? || row.value.orderId == "" || !f.callOk { return false; }
      ok := store.UpdateSubscription(user, UNSUBSCRIBE_UPDATE, f.writeOk);
    }

    /** admin.SetPlan. */
    method SetPlan(user: Uuid, planName: string, f: Faults) returns (ok: bool)
      modifies store
      ensures (store.Tables(), ok) == Apply(old(store.Tables()), Request.SetPlan(user, planName, f))
    {
      if !Plans.IsPlan(planName) { return false; }
      var status := MANUAL;
      if planName == Plans.FREE { status := NO_STATUS; }
      ok := store.UpdateSubscription(user, SubUpdate(planName, status, None), f.writeOk);
    }

    /** admin.ExtendTrial. */
    method ExtendTrial(user: Uuid, days: int, now: Instant, f: Faults) returns (ok: bool)
      modifies store
      ensures (store.Tables(), ok) == Apply(old(store.Tables()), Request.ExtendTrial(user, days, now, f))
    {
      if days <= 0 { return false; }
      var row := store.GetByID(user, f.readOk);
      if row.None? { return false; }
      ok := store.UpdateSubscription(user, ExtendedTrial(row.value, days, now), f.writeOk);
    }

    /** admin.CancelSubscription: with an order id it is billing's Cancel, whose error is dropped. */
    method CancelSubscription(user: Uuid, readOk: bool, f: Faults) returns (ok: bool)
      modifies store
      ensures (store.Tables(), ok) == Apply(old(store.Tables()), AdminCancel(user, readOk, f))
    {
      var row := store.GetByID(user, readOk);
      if row.None? { return false; }
      if row.value.orderId != "" {
        var _ := Cancel(user, f);
        return true;
      }
      ok := store.UpdateSubscription(user, ADMIN_CANCEL_UPDATE, f.writeOk);
    }
  }
}
