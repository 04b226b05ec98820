/** What the admin's requests write. */
module BillingAdmin {
  import opened Wrappers
  import opened Orders
  import opened Billing
  import opened BillingRuns
  import opened Time
  import Plans

  /** Only this user's row changes, and no receipt is added. */
  predicate OnlyRow(db: Db, db': Db, user: Uuid) {
    && user in db.users && user in db'.users && db'.events == db.events
    && db'.users == db.users[user := db'.users[user]]
  }

  /** An extension moves the trial end by exactly its days, from the later of now and the old end, on Max. */
  lemma ExtensionMoves(db: Db, user: Uuid, days: int, now: Instant, f: Faults)
    requires Apply(db, ExtendTrial(user, days, now, f)).1
    ensures days > 0 && OnlyRow(db, Apply(db, ExtendTrial(user, days, now, f)).0, user)
    ensures var row, row' := db.users[user], Apply(db, ExtendTrial(user, days, now, f)).0.users[user];
            && row'.plan == Plans.MAX && row'.status == TRIALING && row'.orderId == row.orderId
            && row'.trialEndsAt.Some? && row'.trialEndsAt.value >= now + days * DAY
            && (row.trialEndsAt.Some? ==> row'.trialEndsAt.value >= row.trialEndsAt.value + days * DAY)
            && (row'.trialEndsAt.value == now + days * DAY
                || (row.trialEndsAt.Some? && row'.trialEndsAt.value == row.trialEndsAt.value + days * DAY))
  {}

  lemma DaysAdd(a: int, b: int)
    ensures (a + b) * DAY == a * DAY + b * DAY
  {}

  lemma WrittenTwice(db: Db, user: Uuid, u: SubUpdate, v: SubUpdate)
    requires user in db.users
    ensures UpdateSubscription(UpdateSubscription(db, user, u), user, v) == UpdateSubscription(db, user, v)
  {
    var mid := UpdateSubscription(db, user, u);
    assert mid.users[user := UserRow(v.plan, v.status, v.trialEndsAt, db.users[user].orderId)] ==
           db.users[user := UserRow(v.plan, v.status, v.trialEndsAt, db.users[user].orderId)];
  }

  /** Extending twice at one time is extending once by the sum of the days. */
  lemma ExtensionsAdd(db: Db, user: Uuid, a: int, b: int, now: Instant, f: Faults)
    requires a > 0 && b > 0
    ensures Apply(Apply(db, ExtendTrial(user, a, now, f)).0, ExtendTrial(user, b, now, f)) ==
            Apply(db, ExtendTrial(user, a + b, now, f))
  {
    DaysAdd(a, b);
    if f.readOk && f.writeOk && user in db.users {
      var once := ExtendedTrial(db.users[user], a, now);
      assert once.trialEndsAt.value >= now;
      var mid := Apply(db, ExtendTrial(user, a, now, f)).0;
      assert ExtendedTrial(mid.users[user], b, now) == ExtendedTrial(db.users[user], a + b, now);
      WrittenTwice(db, user, once, ExtendedTrial(db.users[user], a + b, now));
    }
  }

  /** A granted plan is the row's plan, marked manual unless it is Free; a running trial ends. */
  lemma GrantWrites(db: Db, user: Uuid, planName: string, f: Faults)
    requires Apply(db, SetPlan(user, planName, f)).1
    ensures OnlyRow(db, Apply(db, SetPlan(user, planName, f)).0, user)
    ensures var row, row' := db.users[user], Apply(db, SetPlan(user, planName, f)).0.users[user];
            && row'.plan == planName && row'.trialEndsAt == None && row'.orderId == row.orderId
            && (planName == Plans.FREE <==> row'.status == NO_STATUS)
            && (planName != Plans.FREE <==> row'.status == MANUAL)
  {
    assert |MANUAL| != |NO_STATUS|;
  }

  /** After an admin's cancel a user without an order id is as good as new, and may start a trial or buy. */
  lemma CancelWithoutOrder(db: Db, user: Uuid, f: Faults, r: Request)
    requires user in db.users && db.users[user].orderId == "" && f.writeOk && TriesCheckout(r, user)
    ensures var db' := Apply(db, AdminCancel(user, true, f)).0;
            OnlyRow(db, db', user) && db'.users[user] == NEW_USER && ChecksOut(db', r, user)
  {
    var db' := Apply(db, AdminCancel(user, true, f)).0;
    CheckoutWritesIff(db', r, user);
    hide OrderId, ChecksOut;
  }
}
