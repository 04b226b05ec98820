/**
 Exactly which steps of a schedule break what atomic requests keep. A checkout's write breaks the agreement of
 status and plan when it meets a paid row. A write loses the receipt when it leaves a paid plan under an order
 id for which no receipt grants it. No other step does, however the requests overlap.
 */
module BillingBreaks {
  import opened Wrappers
  import opened Orders
  import opened Billing
  import opened BillingInterleaved
  import opened BillingOrderly
  import opened BillingRuns
  import opened Time
  import Plans

  // ---- whole schedules ----

  ghost predicate Always(holds: seq<Event> -> bool, es: seq<Event>) { forall k :: 0 <= k <= |es| ==> holds(es[..k]) }

  ghost predicate Never(breaks: (seq<Event>, Event) -> bool, es: seq<Event>) {
    forall k :: 0 <= k < |es| ==> !breaks(es[..k], es[k])
  }

  /** What holds at the start and is broken exactly by certain events holds throughout exactly if there are none. */
  lemma AlwaysIff(holds: seq<Event> -> bool, breaks: (seq<Event>, Event) -> bool, es: seq<Event>)
    requires holds([])
    requires forall k :: 0 <= k < |es| && holds(es[..k]) ==> (holds(es[..k + 1]) <==> !breaks(es[..k], es[k]))
    ensures Always(holds, es) <==> Never(breaks, es)
  {
    if Never(breaks, es) {
      assert es[..0] == [];
      var k := 0;
      while k < |es|
        invariant 0 <= k <= |es| && forall j :: 0 <= j <= k ==> holds(es[..j])
      {
        assert !breaks(es[..k], es[k]);
        k := k + 1;
      }
    }
    if Always(holds, es) {
      forall k | 0 <= k < |es| ensures !breaks(es[..k], es[k]) {
        assert holds(es[..k]) && holds(es[..k + 1]);
      }
    }
  }

  // ---- writes ----

  /** The write of a checkout, on a row that exists. */
  predicate WritesCheckout(db: Db, pc: Pc, input: Input) { pc.WriteCheckout? && input.ok && pc.user in db.users }

  /** The write of any other request, on a row that exists. */
  predicate WritesUpdate(db: Db, pc: Pc, input: Input) { pc.WriteSubscription? && input.ok && pc.user in db.users }

  lemma RowsKept(db: Db, pc: Pc, input: Input)
    requires !WritesUpdate(db, pc, input) && !WritesCheckout(db, pc, input)
    ensures Call(db, pc, input).0.users == db.users
  {
    hide OrderId, ParseOrderId;
  }

  // ---- status and plan ----

  /** What a request in flight holds in every schedule, whatever the tables. */
  predicate PcSound(pc: Pc) {
    match pc
    case ReadForCheckout(_, flow, planName) => Sellable(flow, planName)
    case WriteCheckout(_, flow, planName) => Sellable(flow, planName)
    case WriteReceipt(cb, found, _, flow, planName) =>
      Names(cb.orderId, found) && ParseOrderId(cb.orderId) == Some((flow, planName))
    case WriteSubscription(_, update, _) => UpdateAgrees(update)
    case _ => true
  }

  predicate Sound(s: State) { OwnOrders(s.db) && forall i :: 0 <= i < |s.flight| ==> PcSound(s.flight[i]) }

  predicate PendsPaidRow(db: Db, pc: Pc, input: Input) {
    WritesCheckout(db, pc, input) && db.users[pc.user].plan != Plans.FREE
  }

  /** A checkout's write keeps the agreement of status and plan exactly on a row that is still on Free. */
  lemma CheckoutAgreesIff(db: Db, pc: Pc, input: Input)
    requires Good(db) && PcSound(pc) && WritesCheckout(db, pc, input)
    ensures Good(Call(db, pc, input).0) <==> db.users[pc.user].plan == Plans.FREE
  {
    CheckoutCall(db, pc, input);
    OrderIdRoundTrip(pc.flow, pc.plan, pc.user, input.now / SECOND);
    if db.users[pc.user].plan == Plans.FREE { BeginGood(db, pc.user, PrintedId(pc, input), TrialEnd(pc, input)); }
    hide OrderId, Names, ParseOrderId, OwnOrder, Call;
    assert Call(db, pc, input).0.users[pc.user].status == PENDING;
  }

  /** Of all calls only a checkout's write on a paid row breaks the agreement. */
  lemma CallAgreesIff(db: Db, pc: Pc, input: Input)
    requires Good(db) && PcSound(pc)
    ensures Good(Call(db, pc, input).0) <==> !PendsPaidRow(db, pc, input)
  {
    hide OrderId, Names, ParseOrderId, Good, OwnOrder;
    if WritesCheckout(db, pc, input) {
      CheckoutAgreesIff(db, pc, input);
    } else if WritesUpdate(db, pc, input) {
      UpdateGood(db, pc.user, pc.update);
    } else {
      RowsKept(db, pc, input);
      SameRowsGood(db, Call(db, pc, input).0);
    }
  }

  lemma SameRowsGood(db: Db, db': Db)
    requires Good(db) && db'.users == db.users
    ensures Good(db')
  {
    hide OwnOrder, StatusAgrees;
  }

  lemma ReceiptSound(db: Db, pc: Pc, input: Input)
    requires PcSound(pc) && pc.WriteReceipt?
    ensures PcSound(Call(db, pc, input).1)
  {
    OutcomeAgrees(pc.cb, pc.found, pc.row, pc.flow, pc.plan);
    hide Names, ParseOrderId;
  }

  lemma FindSound(db: Db, pc: Pc, input: Input)
    requires OwnOrders(db) && pc.FindOrder?
    ensures PcSound(Call(db, pc, input).1)
  {
    hide OrderId, UuidText;
  }

  lemma CallSound(db: Db, pc: Pc, input: Input)
    requires OwnOrders(db) && PcSound(pc)
    ensures PcSound(Call(db, pc, input).1)
  {
    hide OrderId, Names, ParseOrderId;
    if pc.FindOrder? { FindSound(db, pc, input); } else if pc.WriteReceipt? { ReceiptSound(db, pc, input); }
  }

  lemma {:induction false} ScheduleSound(es: seq<Event>)
    ensures Sound(Schedule(es))
  {
    ScheduleIsolated(es);
    if es != [] {
      var s, e := Schedule(es[..|es| - 1]), es[|es| - 1];
      ScheduleSound(es[..|es| - 1]);
      hide PcSound, PcOwn, OwnOrders, Call;
      if Enabled(s, e) {
        if e.Arrive? { InitialSound(e.pc); }
        if e.Advance? { CallSound(s.db, s.flight[e.i], e.input); }
      }
    }
  }

  lemma InitialSound(pc: Pc)
    requires Initial(pc)
    ensures PcSound(pc)
  {}

  /** The event is the write of a checkout that meets a paid row. */
  predicate BreaksAgreement(s: State, e: Event) {
    Enabled(s, e) && e.Advance? && PendsPaidRow(s.db, s.flight[e.i], e.input)
  }

  lemma EventAgreesIff(s: State, e: Event)
    requires Sound(s) && Good(s.db) && Enabled(s, e)
    ensures Good(Next(s, e).db) <==> !BreaksAgreement(s, e)
  {
    hide PcSound, OwnOrders, Call, PendsPaidRow;
    if e.Advance? { CallAgreesIff(s.db, s.flight[e.i], e.input); }
  }

  lemma EventGood(es: seq<Event>, k: nat)
    requires k < |es| && Good(Schedule(es[..k]).db)
    ensures Good(Schedule(es[..k + 1]).db) <==> !BreaksAgreement(Schedule(es[..k]), es[k])
  {
    hide *;
    ScheduleStep(es, k);
    ScheduleSound(es[..k]);
    var s, e := Schedule(es[..k]), es[k];
    if Enabled(s, e) { EventAgreesIff(s, e); } else { DisabledKeeps(s, e); }
  }

  lemma ScheduleStep(es: seq<Event>, k: nat)
    requires k < |es|
    ensures var s := Schedule(es[..k]);
            Schedule(es[..k + 1]) == if Enabled(s, es[k]) then Next(s, es[k]) else s
  {
    assert es[..k] + [es[k]] == es[..k + 1];
    ScheduleAfter(es[..k], es[k]);
  }

  lemma DisabledKeeps(s: State, e: Event)
    requires !Enabled(s, e)
    ensures !BreaksAgreement(s, e)
  {}

  /**
   A schedule keeps own order ids and the agreement of status and plan throughout exactly if no checkout's write in
   it meets a paid row.
   */
  lemma AlwaysGoodIff(es: seq<Event>)
    ensures (forall k :: 0 <= k <= |es| ==> Good(Schedule(es[..k]).db)) <==>
            (forall k :: 0 <= k < |es| ==> !BreaksAgreement(Schedule(es[..k]), es[k]))
  {
    var holds := (p: seq<Event>) => Good(Schedule(p).db);
    var breaks := (p: seq<Event>, e: Event) => BreaksAgreement(Schedule(p), e);
    assert holds([]);
    hide Good, BreaksAgreement, Schedule;
    forall k | 0 <= k < |es| && holds(es[..k]) ensures holds(es[..k + 1]) <==> !breaks(es[..k], es[k]) {
      EventGood(es, k);
    }
    AlwaysIff(holds, breaks, es);
    assert Always(holds, es) <==> forall k :: 0 <= k <= |es| ==> Good(Schedule(es[..k]).db);
    assert Never(breaks, es) <==> forall k :: 0 <= k < |es| ==> !BreaksAgreement(Schedule(es[..k]), es[k]);
  }

  // ---- receipts ----

  /** A callback about to grant a paid plan has recorded a receipt for it under its order id. */
  ghost predicate Served(db: Db, pc: Pc) {
    pc.WriteSubscription? && pc.orderId.Some? && pc.update.plan != Plans.FREE ==>
      Granted(db, pc.user, pc.orderId.value, pc.update.plan)
  }

  lemma {:induction false} ScheduleServed(es: seq<Event>)
    ensures forall i :: 0 <= i < |Schedule(es).flight| ==> Served(Schedule(es).db, Schedule(es).flight[i])
  {
    hide Served, Call;
    if es != [] {
      var s, e := Schedule(es[..|es| - 1]), es[|es| - 1];
      ScheduleServed(es[..|es| - 1]);
      if Enabled(s, e) {
        match e
        case Arrive(pc) => InitialServed(s.db, pc);
        case Register(user) =>
          forall i | 0 <= i < |s.flight| ensures Served(Next(s, e).db, s.flight[i]) {
            StillServed(s.db, Next(s, e).db, s.flight[i]);
          }
        case Advance(i, input) =>
          CallServed(s.db, s.flight[i], input);
          forall j | 0 <= j < |s.flight| && j != i ensures Served(Next(s, e).db, s.flight[j]) {
            StillServed(s.db, Next(s, e).db, s.flight[j]);
          }
      }
    }
  }

  lemma InitialServed(db: Db, pc: Pc)
    requires Initial(pc)
    ensures Served(db, pc)
  {}

  lemma StillServed(db: Db, db': Db, pc: Pc)
    requires Served(db, pc) && db.events <= db'.events
    ensures Served(db', pc)
  {
    if pc.WriteSubscription? && pc.orderId.Some? && pc.update.plan != Plans.FREE {
      hide Granted;
      MoreGranted(db, db', pc.user, pc.orderId.value, pc.update.plan);
    }
  }

  /** A call only adds receipts, and a callback's update follows its receipt. */
  lemma CallServed(db: Db, pc: Pc, input: Input)
    ensures var r := Call(db, pc, input); db.events <= r.0.events && Served(r.0, r.1)
  {
    hide OrderId, ParseOrderId;
    if pc.WriteReceipt? && input.ok {
      var e := EventOf(pc.cb, pc.found, pc.plan);
      var db' := Call(db, pc, input).0;
      assert e in db'.events;
      var o := Outcome(pc.cb.status, pc.flow, pc.plan, pc.row.trialEndsAt);
      if o.Some? && o.value.plan != Plans.FREE {
        assert Grants(e, pc.found, UserRow(o.value.plan, ACTIVE, None, pc.cb.orderId));
      }
    }
  }

  /** An update keeps every paid plan backed exactly if it writes Free or a plan granted under the row's order id. */
  lemma UpdateBackedIff(db: Db, pc: Pc, input: Input)
    requires Backed(db) && WritesUpdate(db, pc, input)
    ensures Backed(Call(db, pc, input).0) <==>
            pc.update.plan == Plans.FREE || Granted(db, pc.user, db.users[pc.user].orderId, pc.update.plan)
  {
    RowWritten(db, pc.user, db.users[pc.user].(plan := pc.update.plan, status := pc.update.status,
                                                trialEndsAt := pc.update.trialEndsAt));
  }

  /** A checkout's write does exactly if the row is on Free or a receipt already grants its plan under the new id. */
  lemma CheckoutBackedIff(db: Db, pc: Pc, input: Input)
    requires Backed(db) && WritesCheckout(db, pc, input)
    ensures Backed(Call(db, pc, input).0) <==>
            var planName := db.users[pc.user].plan;
            planName == Plans.FREE || Granted(db, pc.user, PrintedId(pc, input), planName)
  {
    hide OrderId;
    RowWritten(db, pc.user, Call(db, pc, input).0.users[pc.user]);
  }

  lemma RowWritten(db: Db, user: Uuid, row: UserRow)
    requires Backed(db) && user in db.users
    ensures Backed(db.(users := db.users[user := row])) <==>
            row.plan == Plans.FREE || Granted(db, user, row.orderId, row.plan)
  {
    var db' := db.(users := db.users[user := row]);
    var plain := UserRow(row.plan, ACTIVE, None, row.orderId);
    assert forall e: PaymentEvent :: Grants(e, user, plain) <==> Grants(e, user, row);
    assert db'.users[user] == row;
  }

  /** The step leaves a paid plan under an order id for which no receipt grants it. */
  ghost predicate LosesReceipt(db: Db, pc: Pc, input: Input) {
    || (WritesUpdate(db, pc, input) && pc.update.plan != Plans.FREE
        && pc.orderId != Some(db.users[pc.user].orderId)
        && !Granted(db, pc.user, db.users[pc.user].orderId, pc.update.plan))
    || (PendsPaidRow(db, pc, input) && !Granted(db, pc.user, PrintedId(pc, input), db.users[pc.user].plan))
  }

  /**
   A callback whose row still carries the order id it serves keeps every paid plan backed; another write does
   exactly if a receipt grants the plan under the order id it leaves behind.
   */
  lemma CallBackedIff(db: Db, pc: Pc, input: Input)
    requires Backed(db) && Served(db, pc)
    ensures Backed(Call(db, pc, input).0) <==> !LosesReceipt(db, pc, input)
  {
    hide Granted, OrderId, ParseOrderId, Names;
    if WritesUpdate(db, pc, input) {
      UpdateBackedIff(db, pc, input);
    } else if WritesCheckout(db, pc, input) {
      CheckoutBackedIff(db, pc, input);
    } else {
      RowsKept(db, pc, input);
      CallServed(db, pc, input);
      MoreBacked(db, Call(db, pc, input).0);
    }
  }

  lemma MoreBacked(db: Db, db': Db)
    requires Backed(db) && db.events <= db'.events && db'.users == db.users
    ensures Backed(db')
  {
    forall u | u in db'.users && db'.users[u].plan != Plans.FREE
      ensures exists e :: e in db'.events && Grants(e, u, db'.users[u])
    {
      var e :| e in db.events && Grants(e, u, db.users[u]);
      assert e in db'.events;
    }
  }

  ghost predicate BreaksBacking(s: State, e: Event) {
    Enabled(s, e) && e.Advance? && LosesReceipt(s.db, s.flight[e.i], e.input)
  }

  lemma EventBackedIff(s: State, e: Event)
    requires Backed(s.db) && (forall i :: 0 <= i < |s.flight| ==> Served(s.db, s.flight[i])) && Enabled(s, e)
    ensures Backed(Next(s, e).db) <==> !BreaksBacking(s, e)
  {
    hide Served, Call, LosesReceipt, Backed;
    match e
    case Arrive(_) =>
    case Register(user) => RegisterBacked(s.db, user);
    case Advance(i, input) => CallBackedIff(s.db, s.flight[i], input);
  }

  lemma EventBacked(es: seq<Event>, k: nat)
    requires k < |es| && Backed(Schedule(es[..k]).db)
    ensures Backed(Schedule(es[..k + 1]).db) <==> !BreaksBacking(Schedule(es[..k]), es[k])
  {
    hide *;
    ScheduleStep(es, k);
    ScheduleServed(es[..k]);
    var s, e := Schedule(es[..k]), es[k];
    if Enabled(s, e) { EventBackedIff(s, e); } else { DisabledLosesNone(s, e); }
  }

  lemma DisabledLosesNone(s: State, e: Event)
    requires !Enabled(s, e)
    ensures !BreaksBacking(s, e)
  {}

  /**
   A schedule, with or without admin requests, has a granting receipt for every paid row throughout exactly if no
   step in it loses one.
   */
  lemma AlwaysBackedIff(es: seq<Event>)
    ensures (forall k :: 0 <= k <= |es| ==> Backed(Schedule(es[..k]).db)) <==>
            (forall k :: 0 <= k < |es| ==> !BreaksBacking(Schedule(es[..k]), es[k]))
  {
    var holds := (p: seq<Event>) => Backed(Schedule(p).db);
    var breaks := (p: seq<Event>, e: Event) => BreaksBacking(Schedule(p), e);
    assert holds([]);
    hide Backed, BreaksBacking, Schedule;
    forall k | 0 <= k < |es| && holds(es[..k]) ensures holds(es[..k + 1]) <==> !breaks(es[..k], es[k]) {
      EventBacked(es, k);
    }
    AlwaysIff(holds, breaks, es);
    assert Always(holds, es) <==> forall k :: 0 <= k <= |es| ==> Backed(Schedule(es[..k]).db);
    assert Never(breaks, es) <==> forall k :: 0 <= k < |es| ==> !BreaksBacking(Schedule(es[..k]), es[k]);
  }

  // ---- requests of one user that do not overlap ----

  lemma {:induction false} OrderlyPrefix(es: seq<Event>, k: nat)
    requires Orderly(es) && k <= |es|
    ensures Orderly(es[..k])
    decreases |es|
  {
    hide ArrivesApart;
    if k == |es| {
      assert es[..k] == es;
    } else {
      assert es[..|es| - 1][..k] == es[..k];
      OrderlyPrefix(es[..|es| - 1], k);
    }
  }

  /**
   Where the requests of one user do not overlap, no step breaks the agreement, and without admins none loses a
   receipt.
   */
  lemma OrderlyNeverBreaks(es: seq<Event>)
    requires Orderly(es)
    ensures forall k :: 0 <= k < |es| ==> !BreaksAgreement(Schedule(es[..k]), es[k])
    ensures NoAdminEvents(es) ==> forall k :: 0 <= k < |es| ==> !BreaksBacking(Schedule(es[..k]), es[k])
  {
    hide Good, Backed, BreaksAgreement, BreaksBacking, Schedule, Orderly;
    forall k | 0 <= k <= |es|
      ensures Good(Schedule(es[..k]).db) && (NoAdminEvents(es) ==> Backed(Schedule(es[..k]).db))
    {
      OrderlyPrefix(es, k);
      OrderlyGood(es[..k]);
      if NoAdminEvents(es) { OrderlyBacked(es[..k]); }
    }
    AlwaysGoodIff(es);
    AlwaysBackedIff(es);
  }
}
