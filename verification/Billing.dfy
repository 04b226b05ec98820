/**
 The subscription columns of the users table, the payment_events table, and the effect of each
 request of internal/service/billing and internal/service/admin on them. Every database call, the
 LiqPay call and the clock are inputs: a call that a Faults value marks as failed returns an error.
 */
module Billing {
  import opened Wrappers
  import opened Orders
  import opened Time
  import Plans

  /** Nanoseconds since the Unix epoch. */
  type Instant = int

  const TRIAL_DURATION: int := 7 * DAY

  const NO_STATUS := ""
  const PENDING := "pending"
  const TRIALING := "trialing"
  const ACTIVE := "active"
  const CANCELED := "canceled"
  const MANUAL := "manual"

  const SUBSCRIBED := "subscribed"
  const SUCCESS := "success"
  const FAILURE := "failure"
  const ERROR := "error"
  const UNSUBSCRIBED := "unsubscribed"

  /** trialEndsAt None is SQL NULL, which Go reads as the zero time. */
  datatype UserRow = UserRow(plan: string, status: string, trialEndsAt: Option<Instant>, orderId: string)

  /** The column defaults of the migrations. */
  const NEW_USER := UserRow(Plans.FREE, NO_STATUS, None, "")

  datatype Callback = Callback(action: string, status: string, orderId: string, amount: real, currency: string,
                               errDescription: string)

  datatype PaymentEvent = PaymentEvent(
    userId: Uuid, orderId: string, plan: string, action: string, status: string,
    amount: real, currency: string, errDescription: string)

  datatype Db = Db(users: map<Uuid, UserRow>, events: seq<PaymentEvent>)

  const EMPTY_DB := Db(map[], [])

  // ---- the SQL statements ----

  /** UserStartTrial */
  function BeginCheckout(db: Db, user: Uuid, orderId: string, trialEndsAt: Option<Instant>): Db
    requires user in db.users
  {
    db.(users := db.users[user := db.users[user].(orderId := orderId, status := PENDING, trialEndsAt := trialEndsAt)])
  }

  /** What UserUpdateSubscription writes. */
  datatype SubUpdate = SubUpdate(plan: string, status: string, trialEndsAt: Option<Instant>)

  /** UserUpdateSubscription: liqpay_order_id is not touched. */
  function UpdateSubscription(db: Db, user: Uuid, u: SubUpdate): Db
    requires user in db.users
  {
    db.(users := db.users[user := UserRow(u.plan, u.status, u.trialEndsAt, db.users[user].orderId)])
  }

  /** PaymentEventCreate */
  function RecordEvent(db: Db, e: PaymentEvent): Db { db.(events := db.events + [e]) }

  // ---- pure parts ----

  /** planPrice: what LiqPay is asked to charge each month, in dollars. */
  function PlanPrice(planName: string): Option<real> {
    if planName == Plans.PRO then Some(15.0) else if planName == Plans.MAX then Some(99.0) else None
  }

  predicate Recognised(status: string) {
    status == SUBSCRIBED || status == SUCCESS || status == FAILURE || status == UNSUBSCRIBED || status == ERROR
  }

  /** The switch on the callback status: None when the status is not one the code acts on. */
  function Outcome(status: string, flow: string, planName: string, trialEndsAt: Option<Instant>): Option<SubUpdate> {
    if status == SUBSCRIBED then
      Some(SubUpdate(planName, if flow == DIRECT then ACTIVE else TRIALING, trialEndsAt))
    else if status == SUCCESS then
      Some(SubUpdate(planName, ACTIVE, None))
    else if status == FAILURE || status == UNSUBSCRIBED || status == ERROR then
      Some(SubUpdate(Plans.FREE, CANCELED, None))
    else None
  }

  function EventOf(cb: Callback, user: Uuid, planName: string): PaymentEvent {
    PaymentEvent(user, cb.orderId, planName, cb.action, cb.status, cb.amount, cb.currency, cb.errDescription)
  }

  const UNSUBSCRIBE_UPDATE := SubUpdate(Plans.FREE, CANCELED, None)

  function SetPlanUpdate(planName: string): SubUpdate {
    SubUpdate(planName, if planName == Plans.FREE then NO_STATUS else MANUAL, None)
  }

  const ADMIN_CANCEL_UPDATE := SubUpdate(Plans.FREE, NO_STATUS, None)

  /** base.Before(now) holds for the zero time. */
  function ExtendedTrial(row: UserRow, days: int, now: Instant): SubUpdate {
    var base := if row.trialEndsAt.None? || row.trialEndsAt.value < now then now else row.trialEndsAt.value;
    SubUpdate(Plans.MAX, TRIALING, Some(base + days * DAY))
  }

  // ---- whole requests ----

  /** Which of a request's calls succeed, in the order of the code. */
  datatype Faults = Faults(readOk: bool, callOk: bool, writeOk: bool, replyOk: bool)

  const NO_FAULTS := Faults(true, true, true, true)

  datatype Request =
    | CreateUser(user: Uuid)
    | StartTrial(user: Uuid, now: Instant, faults: Faults)
    | Subscribe(user: Uuid, plan: string, now: Instant, faults: Faults)
    | Deliver(decoded: Option<Callback>, found: Uuid, faults: Faults)
    | Cancel(user: Uuid, faults: Faults)
    | SetPlan(user: Uuid, plan: string, faults: Faults)
    | ExtendTrial(user: Uuid, days: int, now: Instant, faults: Faults)
    | AdminCancel(user: Uuid, adminReadOk: bool, faults: Faults)

  /** The part StartTrial and Subscribe share, after Subscribe has checked the plan. */
  function Checkout(db: Db, user: Uuid, flow: string, planName: string, now: Instant, f: Faults): (Db, bool) {
    if !f.readOk || user !in db.users || db.users[user].status != NO_STATUS || !f.writeOk then (db, false)
    else
      var trialEndsAt := if flow == TRIAL then Some(now + TRIAL_DURATION) else None;
      (BeginCheckout(db, user, OrderId(flow, planName, user, now / SECOND), trialEndsAt), f.replyOk)
  }

  /**
   HandleCallback after VerifyAndDecode. `found` is the row the lookup by order id returned; a lookup
   that fails or matches nobody is a `found` whose row does not carry the order id.
   */
  function HandleCallback(db: Db, cb: Callback, found: Uuid, f: Faults): (Db, bool) {
    if !f.readOk || found !in db.users || db.users[found].orderId != cb.orderId then (db, false)
    else match ParseOrderId(cb.orderId)
      case None => (db, false)
      case Some((flow, planName)) =>
        if !f.callOk then (db, false)
        else
          var db1 := RecordEvent(db, EventOf(cb, found, planName));
          match Outcome(cb.status, flow, planName, db.users[found].trialEndsAt)
          case None => (db1, true)
          case Some(u) => if f.writeOk then (UpdateSubscription(db1, found, u), true) else (db1, false)
  }

  function CancelPlan(db: Db, user: Uuid, f: Faults): (Db, bool) {
    if !f.readOk || user !in db.users || db.users[user].orderId == "" || !f.callOk || !f.writeOk then (db, false)
    else (UpdateSubscription(db, user, UNSUBSCRIBE_UPDATE), true)
  }

  /** The new tables and whether the request returned without error. */
  function Apply(db: Db, r: Request): (Db, bool) {
    match r
    case CreateUser(user) => if user in db.users then (db, false) else (db.(users := db.users[user := NEW_USER]), true)
    case StartTrial(user, now, f) => Checkout(db, user, TRIAL, Plans.MAX, now, f)
    case Subscribe(user, planName, now, f) =>
      if PlanPrice(planName).None? then (db, false) else Checkout(db, user, DIRECT, planName, now, f)
    case Deliver(decoded, found, f) => if decoded.None? then (db, false)
      else HandleCallback(db, decoded.value, found, f)
    case Cancel(user, f) => CancelPlan(db, user, f)
    case SetPlan(user, planName, f) =>
      if !Plans.IsPlan(planName) || !f.writeOk || user !in db.users then (db, false)
      else (UpdateSubscription(db, user, SetPlanUpdate(planName)), true)
    case ExtendTrial(user, days, now, f) =>
      if days <= 0 || !f.readOk || user !in db.users || !f.writeOk then (db, false)
      else (UpdateSubscription(db, user, ExtendedTrial(db.users[user], days, now)), true)
    case AdminCancel(user, adminReadOk, f) =>
      if !adminReadOk || user !in db.users then (db, false)
      else if db.users[user].orderId != "" then (CancelPlan(db, user, f).0, true)
      else if f.writeOk then (UpdateSubscription(db, user, ADMIN_CANCEL_UPDATE), true)
      else (db, false)
  }

  /** The tables after serving the requests one after the other. */
  function Run(db: Db, rs: seq<Request>): Db {
    if rs == [] then db else Apply(Run(db, rs[..|rs| - 1]), rs[|rs| - 1]).0
  }
}
