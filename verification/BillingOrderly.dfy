/**
 Schedules in which the requests of one user do not overlap, while those of different users interleave
 freely call by call: they keep what atomic requests keep. Not overlapping is sufficient; the exact condition
 is in BillingBreaks.
 */
module BillingOrderly {
  import opened Wrappers
  import opened Orders
  import opened Billing
  import opened BillingInterleaved
  import opened BillingRuns
  import opened Time
  import Plans

  /** The users a request in flight may still read or write. */
  predicate Touches(pc: Pc, u: Uuid) {
    match pc
    case FindOrder(cb) => Names(cb.orderId, u)
    case WriteReceipt(_, found, _, _, _) => found == u
    case Finished => false
    case _ => pc.user == u
  }

  ghost predicate Apart(pc: Pc, other: Pc) { forall u: Uuid :: !(Touches(pc, u) && Touches(other, u)) }

  /** A request arrives only when every earlier request for the same user is finished. */
  ghost predicate Orderly(es: seq<Event>) {
    es == [] || (Orderly(es[..|es| - 1]) && ArrivesApart(Schedule(es[..|es| - 1]), es[|es| - 1]))
  }

  ghost predicate ArrivesApart(s: State, e: Event) {
    e.Arrive? ==> forall i :: 0 <= i < |s.flight| ==> Apart(s.flight[i], e.pc)
  }

  // ---- what a request in flight relies on ----

  /** A receipt that grants this plan to the user under this order id. */
  ghost predicate Granted(db: Db, user: Uuid, orderId: string, planName: string) {
    exists e :: e in db.events && Grants(e, user, UserRow(planName, ACTIVE, None, orderId))
  }

  predicate UpdateAgrees(u: SubUpdate) { StatusAgrees(UserRow(u.plan, u.status, u.trialEndsAt, "")) }

  ghost predicate Fits(db: Db, pc: Pc) {
    match pc
    case ReadForCheckout(_, flow, planName) => Sellable(flow, planName)
    case WriteCheckout(user, flow, planName) => user in db.users && db.users[user].status == NO_STATUS
      && Sellable(flow, planName)
    case WriteReceipt(cb, found, row, flow, planName) =>
      && found in db.users && db.users[found] == row && row.orderId == cb.orderId
      && Names(cb.orderId, found) && ParseOrderId(cb.orderId) == Some((flow, planName))
    case WriteSubscription(user, update, origin) =>
      && UpdateAgrees(update)
      && (origin.Some? ==>
            && user in db.users && db.users[user].orderId == origin.value
            && (update.plan != Plans.FREE ==> Granted(db, user, origin.value, update.plan)))
    case _ => true
  }

  /** db' differs from db at most in the rows of users pc touches, and in new receipts. */
  ghost predicate OnlyTouched(db: Db, db': Db, pc: Pc) {
    && db'.users.Keys == db.users.Keys && db.events <= db'.events
    && forall u :: u in db.users && !Touches(pc, u) ==> db'.users[u] == db.users[u]
  }

  lemma MoreGranted(db: Db, db': Db, user: Uuid, orderId: string, planName: string)
    requires Granted(db, user, orderId, planName) && db.events <= db'.events
    ensures Granted(db', user, orderId, planName)
  {
    var e :| e in db.events && Grants(e, user, UserRow(planName, ACTIVE, None, orderId));
    assert e in db'.events;
  }

  lemma OtherFits(db: Db, db': Db, pc: Pc, other: Pc)
    requires Fits(db, other) && Apart(pc, other) && OnlyTouched(db, db', pc)
    ensures Fits(db', other)
  {
    hide Names, ParseOrderId, Granted;
    match other
    case WriteCheckout(user, _, _) => assert Touches(other, user);
    case WriteReceipt(_, found, _, _, _) => assert Touches(other, found);
    case WriteSubscription(user, update, origin) =>
      assert Touches(other, user);
      if origin.Some? && update.plan != Plans.FREE { MoreGranted(db, db', user, origin.value, update.plan); }
    case _ =>
  }

  // ---- one call ----

  lemma NoOrderNoParse(db: Db, u: Uuid)
    requires Good(db) && u in db.users && ParseOrderId(db.users[u].orderId).Some?
    ensures Names(db.users[u].orderId, u)
  {}

  lemma FindFits(db: Db, pc: Pc, input: Input)
    requires Good(db) && pc.FindOrder?
    ensures var r := Call(db, pc, input); r.0 == db && Fits(db, r.1) && forall u :: Touches(r.1, u) ==> Touches(pc, u)
  {
    hide Names, ParseOrderId, Good;
    if input.ok && input.found in db.users && db.users[input.found].orderId == pc.cb.orderId
      && ParseOrderId(pc.cb.orderId).Some? {
      NoOrderNoParse(db, input.found);
    }
  }

  lemma RecordGood(db: Db, e: PaymentEvent)
    requires Good(db)
    ensures Good(RecordEvent(db, e))
  {
    hide OwnOrder, StatusAgrees;
  }

  lemma ReceiptFits(db: Db, pc: Pc, input: Input)
    requires Good(db) && Fits(db, pc) && pc.WriteReceipt?
    ensures var r := Call(db, pc, input);
            Good(r.0) && Fits(r.0, r.1) && OnlyTouched(db, r.0, pc) && forall u :: Touches(r.1, u) ==> Touches(pc, u)
  {
    hide Names, ParseOrderId, Good;
    OutcomeAgrees(pc.cb, pc.found, pc.row, pc.flow, pc.plan);
    if input.ok {
      var e := EventOf(pc.cb, pc.found, pc.plan);
      RecordGood(db, e);
      assert e in Call(db, pc, input).0.events;
      var o := Outcome(pc.cb.status, pc.flow, pc.plan, pc.row.trialEndsAt);
      if o.Some? && o.value.plan != Plans.FREE {
        assert Grants(e, pc.found, UserRow(o.value.plan, ACTIVE, None, pc.cb.orderId));
      }
    }
  }

  lemma CheckoutFits(db: Db, pc: Pc, input: Input)
    requires Good(db) && Fits(db, pc) && pc.WriteCheckout?
    ensures var r := Call(db, pc, input); Good(r.0) && r.1 == Finished && OnlyTouched(db, r.0, pc)
  {
    CheckoutCall(db, pc, input);
    if input.ok {
      OrderIdRoundTrip(pc.flow, pc.plan, pc.user, input.now / SECOND);
      FreeWithoutStatus(db, pc.user);
      BeginGood(db, pc.user, PrintedId(pc, input), TrialEnd(pc, input));
    }
    hide OrderId, Names, ParseOrderId, Good, Call;
  }

  lemma FreeWithoutStatus(db: Db, user: Uuid)
    requires Good(db) && user in db.users && db.users[user].status == NO_STATUS
    ensures db.users[user].plan == Plans.FREE
  {
    hide Names;
  }

  lemma CallFits(db: Db, pc: Pc, input: Input)
    requires Good(db) && Fits(db, pc)
    ensures var r := Call(db, pc, input);
            Good(r.0) && Fits(r.0, r.1) && OnlyTouched(db, r.0, pc) && forall u :: Touches(r.1, u) ==> Touches(pc, u)
  {
    hide OrderId, Names, ParseOrderId, Granted;
    if pc.FindOrder? { FindFits(db, pc, input); }
    else if pc.WriteReceipt? { ReceiptFits(db, pc, input); }
    else if pc.WriteCheckout? { CheckoutFits(db, pc, input); }
  }

  // ---- whole schedules ----

  ghost predicate InOrder(s: State) {
    && Good(s.db)
    && (forall i :: 0 <= i < |s.flight| ==> Fits(s.db, s.flight[i]))
    && (forall i, j :: 0 <= i < j < |s.flight| ==> Apart(s.flight[i], s.flight[j]))
  }

  lemma AdvanceInOrder(s: State, i: nat, input: Input)
    requires InOrder(s) && i < |s.flight|
    ensures InOrder(Next(s, Advance(i, input)))
  {
    hide Good, Fits, Touches, Call, OnlyTouched;
    CallFits(s.db, s.flight[i], input);
    var s' := Next(s, Advance(i, input));
    forall j | 0 <= j < |s.flight| && j != i
      ensures Fits(s'.db, s'.flight[j]) && Apart(s'.flight[i], s'.flight[j]) && Apart(s'.flight[j], s'.flight[i])
    {
      if j < i { ApartSym(s.flight[j], s.flight[i]); }
      OtherFits(s.db, s'.db, s.flight[i], s.flight[j]);
    }
  }

  lemma ApartSym(pc: Pc, other: Pc)
    requires Apart(pc, other)
    ensures Apart(other, pc)
  {}

  lemma RegisterFits(db: Db, user: Uuid, pc: Pc)
    requires user !in db.users && Fits(db, pc)
    ensures Fits(db.(users := db.users[user := NEW_USER]), pc)
  {
    hide Names, ParseOrderId, Granted;
    var db' := db.(users := db.users[user := NEW_USER]);
    if pc.WriteSubscription? && pc.orderId.Some? && pc.update.plan != Plans.FREE {
      MoreGranted(db, db', pc.user, pc.orderId.value, pc.update.plan);
    }
  }

  lemma InitialFits(db: Db, pc: Pc)
    requires Initial(pc)
    ensures Fits(db, pc)
  {}

  lemma StepInOrder(s: State, e: Event)
    requires InOrder(s) && Enabled(s, e)
    requires ArrivesApart(s, e)
    ensures InOrder(Next(s, e))
  {
    hide Fits, Apart, Names;
    match e
    case Arrive(pc) => InitialFits(s.db, pc);
    case Register(user) =>
      forall i | 0 <= i < |s.flight| ensures Fits(Next(s, e).db, s.flight[i]) {
        RegisterFits(s.db, user, s.flight[i]);
      }
    case Advance(i, input) => AdvanceInOrder(s, i, input);
  }

  /** With no overlap within a user, own order ids and the agreement of status and plan hold in every schedule. */
  lemma {:induction false} OrderlyGood(es: seq<Event>)
    requires Orderly(es)
    ensures InOrder(Schedule(es)) && Good(Schedule(es).db)
  {
    if es != [] {
      OrderlyGood(es[..|es| - 1]);
      hide InOrder, ArrivesApart, Next;
      if Enabled(Schedule(es[..|es| - 1]), es[|es| - 1]) { StepInOrder(Schedule(es[..|es| - 1]), es[|es| - 1]); }
      InOrderGood(Schedule(es));
    }
  }

  lemma InOrderGood(s: State)
    ensures InOrder(s) ==> Good(s.db)
  {}

  // ---- receipts ----

  /** No admin request is in flight: a write that serves no callback cancels. */
  predicate NotByAdmin(pc: Pc) {
    match pc
    case ReadForExtend(_, _) | ReadForAdminCancel(_) => false
    case WriteSubscription(_, update, origin) => origin.None? ==> update.plan == Plans.FREE
    case _ => true
  }

  lemma CallNotByAdmin(db: Db, pc: Pc, input: Input)
    requires NotByAdmin(pc)
    ensures NotByAdmin(Call(db, pc, input).1)
  {
    hide OrderId, ParseOrderId;
  }

  lemma CallBacked(db: Db, pc: Pc, input: Input)
    requires Good(db) && Fits(db, pc) && NotByAdmin(pc) && Backed(db)
    ensures Backed(Call(db, pc, input).0)
  {
    hide OrderId, ParseOrderId, Names, Outcome;
    var db' := Call(db, pc, input).0;
    forall u | u in db'.users && db'.users[u].plan != Plans.FREE
      ensures exists e :: e in db'.events && Grants(e, u, db'.users[u])
    {
      if db'.users[u] == db.users[u] {
        var e :| e in db.events && Grants(e, u, db.users[u]);
        assert e in db'.events;
      } else {
        assert pc.WriteSubscription? && pc.user == u && pc.orderId.Some?;
        var e :| e in db.events && Grants(e, u, UserRow(pc.update.plan, ACTIVE, None, pc.orderId.value));
        assert Grants(e, u, db'.users[u]);
      }
    }
  }

  lemma StepBacked(s: State, e: Event)
    requires InOrder(s) && Enabled(s, e) && Backed(s.db) && forall i :: 0 <= i < |s.flight| ==> NotByAdmin(s.flight[i])
    requires e.Arrive? ==> NotByAdmin(e.pc)
    ensures var s' := Next(s, e); Backed(s'.db) && forall i :: 0 <= i < |s'.flight| ==> NotByAdmin(s'.flight[i])
  {
    hide Good, Fits, Apart, Call, NotByAdmin;
    match e
    case Arrive(pc) =>
    case Register(user) => RegisterBacked(s.db, user);
    case Advance(i, input) =>
      CallBacked(s.db, s.flight[i], input);
      CallNotByAdmin(s.db, s.flight[i], input);
  }

  lemma RegisterBacked(db: Db, user: Uuid)
    requires user !in db.users && Backed(db)
    ensures Backed(db.(users := db.users[user := NEW_USER]))
  {}

  /** Without admin requests, such a schedule never leaves a paid plan without its granting receipt. */
  lemma {:induction false} OrderlyBacked(es: seq<Event>)
    requires Orderly(es) && NoAdminEvents(es)
    ensures Backed(Schedule(es).db)
    ensures forall i :: 0 <= i < |Schedule(es).flight| ==> NotByAdmin(Schedule(es).flight[i])
  {
    if es != [] {
      hide InOrder, ArrivesApart, Next, Backed, NotByAdmin;
      var init, last := es[..|es| - 1], es[|es| - 1];
      assert forall i :: 0 <= i < |init| ==> init[i] == es[i];
      OrderlyGood(init);
      OrderlyBacked(init);
      if last.Arrive? { ArrivalNotByAdmin(last.pc); }
      if Enabled(Schedule(init), last) { StepBacked(Schedule(init), last); }
    } else {
      NothingScheduled(es);
    }
  }

  lemma ArrivalNotByAdmin(pc: Pc)
    ensures pc.ReadForCheckout? || pc.FindOrder? || pc.ReadForCancel? ==> NotByAdmin(pc)
  {}

  lemma NothingScheduled(none: seq<Event>)
    requires none == []
    ensures Backed(Schedule(none).db) && Schedule(none).flight == []
  {}
}
