/**
 Billing requests split at every database and LiqPay call. A state holds the tables and the requests
 in flight; one step runs one call of one request. Callbacks stay isolated here too. The agreement of
 status and plan and the receipt behind every paid row can be lost, as the schedules at the end show;
 BillingBreaks says by which steps exactly, and BillingOrderly that requests of one user that do not
 overlap never lose them.
 */
module BillingInterleaved {
  import opened Wrappers
  import opened Orders
  import opened Billing
  import opened Time
  import Plans
  import BillingRuns

  /** What a request is about to do. */
  datatype Pc =
    | ReadForCheckout(user: Uuid, flow: string, plan: string)
    | WriteCheckout(user: Uuid, flow: string, plan: string)
    | FindOrder(cb: Callback)
    | WriteReceipt(cb: Callback, found: Uuid, row: UserRow, flow: string, plan: string)
    | ReadForCancel(user: Uuid)
    | CallUnsubscribe(user: Uuid)
    | ReadForExtend(user: Uuid, days: int)
    | ReadForAdminCancel(user: Uuid)
    | WriteSubscription(user: Uuid, update: SubUpdate, orderId: Option<string>)  // Some: the callback it acts for
    | Finished

  /** The inputs of one step: whether the call succeeds, the clock, and the row a lookup returns. */
  datatype Input = Input(ok: bool, now: Instant, found: Uuid)

  datatype State = State(db: Db, flight: seq<Pc>)

  datatype Event = Arrive(pc: Pc) | Register(user: Uuid) | Advance(i: nat, input: Input)

  /** The first call of each kind of request. */
  predicate Initial(pc: Pc) {
    match pc
    case ReadForCheckout(_, flow, planName) => Sellable(flow, planName)
    case FindOrder(_) | ReadForCancel(_) | ReadForAdminCancel(_) => true
    case ReadForExtend(_, days) => days > 0
    case WriteSubscription(_, update, origin) => origin.None? && Plans.IsPlan(update.plan)
      && update == SetPlanUpdate(update.plan)
    case _ => false
  }

  /** The order id and the trial end a checkout's write stores. */
  function PrintedId(pc: Pc, input: Input): string
    requires pc.WriteCheckout?
  {
    OrderId(pc.flow, pc.plan, pc.user, input.now / SECOND)
  }

  function TrialEnd(pc: Pc, input: Input): Option<Instant>
    requires pc.WriteCheckout?
  {
    if pc.flow == TRIAL then Some(input.now + TRIAL_DURATION) else None
  }

  function Call(db: Db, pc: Pc, input: Input): (Db, Pc) {
    if !input.ok then (db, Finished)
    else match pc
      case ReadForCheckout(user, flow, planName) =>
        if user !in db.users || db.users[user].status != NO_STATUS then (db, Finished)
        else (db, WriteCheckout(user, flow, planName))
      case WriteCheckout(user, _, _) =>
        if user !in db.users then (db, Finished)
        else (BeginCheckout(db, user, PrintedId(pc, input), TrialEnd(pc, input)), Finished)
      case FindOrder(cb) =>
        if input.found !in db.users || db.users[input.found].orderId != cb.orderId then (db, Finished)
        else (match ParseOrderId(cb.orderId)
          case None => (db, Finished)
          case Some((flow, planName)) => (db, WriteReceipt(cb, input.found, db.users[input.found], flow, planName)))
      case WriteReceipt(cb, found, row, flow, planName) =>
        (RecordEvent(db, EventOf(cb, found, planName)),
         match Outcome(cb.status, flow, planName, row.trialEndsAt)
         case None => Finished
         case Some(u) => WriteSubscription(found, u, Some(cb.orderId)))
      case ReadForCancel(user) =>
        if user !in db.users || db.users[user].orderId == "" then (db, Finished) else (db, CallUnsubscribe(user))
      case CallUnsubscribe(user) => (db, WriteSubscription(user, UNSUBSCRIBE_UPDATE, None))
      case ReadForExtend(user, days) =>
        if user !in db.users then (db, Finished)
        else (db, WriteSubscription(user, ExtendedTrial(db.users[user], days, input.now), None))
      case ReadForAdminCancel(user) =>
        if user !in db.users then (db, Finished)
        else if db.users[user].orderId != "" then (db, ReadForCancel(user))
        else (db, WriteSubscription(user, ADMIN_CANCEL_UPDATE, None))
      case WriteSubscription(user, update, _) =>
        if user !in db.users then (db, Finished) else (UpdateSubscription(db, user, update), Finished)
      case Finished => (db, Finished)
  }

  lemma CheckoutCall(db: Db, pc: Pc, input: Input)
    requires pc.WriteCheckout?
    ensures Call(db, pc, input) ==
            (if input.ok && pc.user in db.users
             then BeginCheckout(db, pc.user, PrintedId(pc, input), TrialEnd(pc, input)) else db, Finished)
  {
    hide PrintedId, BeginCheckout;
  }

  predicate Enabled(s: State, e: Event) {
    match e
    case Arrive(pc) => Initial(pc)
    case Register(user) => user !in s.db.users
    case Advance(i, _) => i < |s.flight|
  }

  function Next(s: State, e: Event): State
    requires Enabled(s, e)
  {
    match e
    case Arrive(pc) => s.(flight := s.flight + [pc])
    case Register(user) => s.(db := s.db.(users := s.db.users[user := NEW_USER]))
    case Advance(i, input) =>
      var (db, pc) := Call(s.db, s.flight[i], input);
      State(db, s.flight[i := pc])
  }

  const START := State(EMPTY_DB, [])

  /** A schedule: any interleaving; an event that is not enabled leaves the state alone. */
  function Schedule(es: seq<Event>): State {
    if es == [] then START
    else
      var s, e := Schedule(es[..|es| - 1]), es[|es| - 1];
      if Enabled(s, e) then Next(s, e) else s
  }

  // ---- callbacks stay isolated under every interleaving ----

  predicate OwnOrders(db: Db) { forall u :: u in db.users ==> BillingRuns.OwnOrder(db.users[u], u) }

  /** What a request in flight knows: the user a callback is about to touch is the one its order id names. */
  predicate PcOwn(pc: Pc) {
    match pc
    case ReadForCheckout(_, flow, planName) => Sellable(flow, planName)
    case WriteCheckout(_, flow, planName) => Sellable(flow, planName)
    case WriteReceipt(cb, found, _, _, _) => Names(cb.orderId, found)
    case WriteSubscription(user, _, origin) => origin.Some? ==> Names(origin.value, user)
    case _ => true
  }

  predicate Isolated(s: State) { OwnOrders(s.db) && forall i :: 0 <= i < |s.flight| ==> PcOwn(s.flight[i]) }

  lemma CheckoutIsolated(db: Db, pc: Pc, input: Input)
    requires OwnOrders(db) && PcOwn(pc) && pc.WriteCheckout?
    ensures var r := Call(db, pc, input); OwnOrders(r.0) && PcOwn(r.1)
  {
    OrderIdRoundTrip(pc.flow, pc.plan, pc.user, input.now / SECOND);
    hide OrderId, Names, ParseOrderId;
  }

  lemma FindIsolated(db: Db, pc: Pc, input: Input)
    requires OwnOrders(db) && pc.FindOrder?
    ensures var r := Call(db, pc, input); r.0 == db && PcOwn(r.1)
  {
    hide OrderId;
  }

  lemma CallIsolated(db: Db, pc: Pc, input: Input)
    requires OwnOrders(db) && PcOwn(pc)
    ensures var r := Call(db, pc, input); OwnOrders(r.0) && PcOwn(r.1)
  {
    hide OrderId, Names, ParseOrderId;
    if pc.WriteCheckout? { CheckoutIsolated(db, pc, input); }
    if pc.FindOrder? { FindIsolated(db, pc, input); }
  }

  lemma {:induction false} ScheduleIsolated(es: seq<Event>)
    ensures Isolated(Schedule(es))
  {
    if es != [] {
      var s, e := Schedule(es[..|es| - 1]), es[|es| - 1];
      ScheduleIsolated(es[..|es| - 1]);
      if Enabled(s, e) && e.Advance? { CallIsolated(s.db, s.flight[e.i], e.input); }
    }
  }

  /** The order id of the callback a request is serving, if it is one. */
  function Serving(pc: Pc): Option<string> {
    match pc
    case FindOrder(cb) => Some(cb.orderId)
    case WriteReceipt(cb, _, _, _, _) => Some(cb.orderId)
    case WriteSubscription(_, _, origin) => origin
    case _ => None
  }

  /**
   In every schedule, a step of a callback changes no user's row or receipts but those of the user its
   order id names.
   */
  lemma CallbackIsolation(es: seq<Event>, i: nat, input: Input, u: Uuid)
    requires var s := Schedule(es); i < |s.flight| && Serving(s.flight[i]).Some? && u in s.db.users
    requires !Names(Serving(Schedule(es).flight[i]).value, u)
    ensures var s := Schedule(es);
            var db := Next(s, Advance(i, input)).db;
            && u in db.users && db.users[u] == s.db.users[u]
            && (db.events == s.db.events
                || exists e: PaymentEvent :: e.userId != u && db.events == s.db.events + [e])
  {
    ScheduleIsolated(es);
    var s := Schedule(es);
    var pc := s.flight[i];
    assert PcOwn(pc);
    if pc.WriteReceipt? && input.ok {
      assert EventOf(pc.cb, pc.found, pc.plan).userId != u;
    }
  }

  /** In every schedule no two users share a non-empty order id. */
  lemma InterleavedOrderIdsDistinct(es: seq<Event>, u: Uuid, v: Uuid)
    ensures var users := Schedule(es).db.users;
            u in users && v in users && users[u].orderId == users[v].orderId != "" ==> u == v
  {
    ScheduleIsolated(es);
    var users := Schedule(es).db.users;
    if u in users && v in users && users[u].orderId == users[v].orderId != "" { NamesOneUser(users[u].orderId, u, v); }
  }

  // ---- whole requests are the uninterrupted schedules ----

  /** Running one request to its end with nothing in between. */
  function Alone(db: Db, pc: Pc, inputs: seq<Input>): Db
    decreases |inputs|
  {
    if inputs == [] then db else var (db', pc') := Call(db, pc, inputs[0]); Alone(db', pc', inputs[1..])
  }

  /** HandleCallback is find, record, update with nothing in between. */
  lemma UninterruptedCallback(db: Db, cb: Callback, found: Uuid, f: Faults, now: Instant)
    ensures Alone(db, FindOrder(cb), [Input(f.readOk, now, found), Input(f.callOk, now, found),
                                      Input(f.writeOk, now, found)])
            == HandleCallback(db, cb, found, f).0
  {
    var a, b, c := Input(f.readOk, now, found), Input(f.callOk, now, found), Input(f.writeOk, now, found);
    assert [a, b, c][1..] == [b, c] && [b, c][1..] == [c] && [c][1..] == [];
    var (db1, pc1) := Call(db, FindOrder(cb), a);
    var (db2, pc2) := Call(db1, pc1, b);
    assert Alone(db1, pc1, [b, c]) == Alone(db2, pc2, [c]);
    assert Alone(db2, pc2, [c]) == Call(db2, pc2, c).0;
  }

  lemma UninterruptedCheckout(db: Db, user: Uuid, flow: string, planName: string, now: Instant, f: Faults)
    ensures Alone(db, ReadForCheckout(user, flow, planName), [Input(f.readOk, now, user), Input(f.writeOk, now, user)])
            == Checkout(db, user, flow, planName, now, f).0
  {
    var a, b := Input(f.readOk, now, user), Input(f.writeOk, now, user);
    assert [a, b][1..] == [b] && [b][1..] == [];
    var (db1, pc1) := Call(db, ReadForCheckout(user, flow, planName), a);
    assert Alone(db1, pc1, [b]) == Call(db1, pc1, b).0;
  }

  lemma UninterruptedSetPlan(db: Db, user: Uuid, planName: string, f: Faults, now: Instant)
    requires Plans.IsPlan(planName)
    ensures Alone(db, WriteSubscription(user, SetPlanUpdate(planName), None), [Input(f.writeOk, now, user)])
            == Apply(db, SetPlan(user, planName, f)).0
  {
    LastCall(db, WriteSubscription(user, SetPlanUpdate(planName), None), Input(f.writeOk, now, user));
  }

  lemma UninterruptedExtend(db: Db, user: Uuid, days: int, now: Instant, f: Faults)
    requires days > 0
    ensures Alone(db, ReadForExtend(user, days), [Input(f.readOk, now, user), Input(f.writeOk, now, user)])
            == Apply(db, ExtendTrial(user, days, now, f)).0
  {
    var a, b := Input(f.readOk, now, user), Input(f.writeOk, now, user);
    FirstCall(db, ReadForExtend(user, days), a, [b]);
    LastCall(db, Call(db, ReadForExtend(user, days), a).1, b);
  }

  lemma UninterruptedCancel(db: Db, user: Uuid, f: Faults, now: Instant)
    ensures Alone(db, ReadForCancel(user), [Input(f.readOk, now, user), Input(f.callOk, now, user),
                                            Input(f.writeOk, now, user)])
            == CancelPlan(db, user, f).0
  {
    var a, b, c := Input(f.readOk, now, user), Input(f.callOk, now, user), Input(f.writeOk, now, user);
    assert [a] + [b, c] == [a, b, c];
    FirstCall(db, ReadForCancel(user), a, [b, c]);
    var pc := Call(db, ReadForCancel(user), a).1;
    FirstCall(db, pc, b, [c]);
    LastCall(db, Call(db, pc, b).1, c);
  }

  /** An admin's cancel reads the row, and then either is the user's cancel or writes at once. */
  lemma UninterruptedAdminCancel(db: Db, user: Uuid, readOk: bool, f: Faults, now: Instant)
    ensures var first, rest := Input(readOk, now, user),
            [Input(f.readOk, now, user), Input(f.callOk, now, user), Input(f.writeOk, now, user)];
            var direct := user in db.users && db.users[user].orderId == "";
            Alone(db, ReadForAdminCancel(user), [first] + if direct then [Input(f.writeOk, now, user)] else rest)
            == Apply(db, AdminCancel(user, readOk, f)).0
  {
    hide OrderId, ParseOrderId, Alone;
    var first, rest := Input(readOk, now, user),
      [Input(f.readOk, now, user), Input(f.callOk, now, user), Input(f.writeOk, now, user)];
    var pc := Call(db, ReadForAdminCancel(user), first).1;
    if user in db.users && db.users[user].orderId == "" {
      FirstCall(db, ReadForAdminCancel(user), first, [Input(f.writeOk, now, user)]);
      LastCall(db, pc, Input(f.writeOk, now, user));
    } else {
      FirstCall(db, ReadForAdminCancel(user), first, rest);
      if pc.Finished? { FinishedAlone(db, rest); } else { UninterruptedCancel(db, user, f, now); }
    }
  }

  lemma FirstCall(db: Db, pc: Pc, input: Input, rest: seq<Input>)
    ensures Alone(db, pc, [input] + rest) == Alone(Call(db, pc, input).0, Call(db, pc, input).1, rest)
  {
    assert ([input] + rest)[1..] == rest;
  }

  lemma LastCall(db: Db, pc: Pc, input: Input)
    ensures Alone(db, pc, [input]) == Call(db, pc, input).0
  {
    assert [input][1..] == [];
  }

  lemma {:induction false} FinishedAlone(db: Db, inputs: seq<Input>)
    ensures Alone(db, Finished, inputs) == db
  {
    if inputs != [] { FinishedAlone(db, inputs[1..]); }
  }

  // ---- what interleaving can break ----

  lemma ScheduleAfter(es: seq<Event>, e: Event)
    ensures Schedule(es + [e]) == if Enabled(Schedule(es), e) then Next(Schedule(es), e) else Schedule(es)
  {
    assert (es + [e])[..|es|] == es;
  }

  /** The events that come from admin requests. */
  predicate NoAdminEvents(es: seq<Event>) {
    forall i :: 0 <= i < |es| && es[i].Arrive? ==>
      es[i].pc.ReadForCheckout? || es[i].pc.FindOrder? || es[i].pc.ReadForCancel?
  }

  function TrialOrder(u: Uuid): string { OrderId(TRIAL, Plans.MAX, u, 0) }

  function DirectOrder(u: Uuid): string { OrderId(DIRECT, Plans.PRO, u, 0) }

  function GrantingCallback(u: Uuid): Callback { Callback("subscribe", SUCCESS, TrialOrder(u), 99.0, "USD", "") }

  /** A new user starts a trial and buys Pro; both requests have read the empty status. */
  lemma BothReadEmptyStatus(u: Uuid) returns (es: seq<Event>)
    ensures NoAdminEvents(es)
    ensures Schedule(es) == State(Db(map[u := NEW_USER], []),
                                  [WriteCheckout(u, TRIAL, Plans.MAX), WriteCheckout(u, DIRECT, Plans.PRO)])
  {
    var input := Input(true, 0, u);
    var trial, direct := ReadForCheckout(u, TRIAL, Plans.MAX), ReadForCheckout(u, DIRECT, Plans.PRO);
    ScheduleAfter([], Register(u));
    es := [] + [Register(u)];
    ScheduleAfter(es, Arrive(trial));
    es := es + [Arrive(trial)];
    ScheduleAfter(es, Arrive(direct));
    es := es + [Arrive(direct)];
    ScheduleAfter(es, Advance(0, input));
    es := es + [Advance(0, input)];
    ScheduleAfter(es, Advance(1, input));
    es := es + [Advance(1, input)];
  }

  /** The trial is written and LiqPay's callback for it has arrived. */
  lemma TrialWritten(u: Uuid) returns (es: seq<Event>)
    ensures NoAdminEvents(es)
    ensures Schedule(es) ==
            State(Db(map[u := UserRow(Plans.FREE, PENDING, Some(TRIAL_DURATION), TrialOrder(u))], []),
                  [Finished, WriteCheckout(u, DIRECT, Plans.PRO), FindOrder(GrantingCallback(u))])
  {
    es := BothReadEmptyStatus(u);
    ScheduleAfter(es, Advance(0, Input(true, 0, u)));
    es := es + [Advance(0, Input(true, 0, u))];
    ScheduleAfter(es, Arrive(FindOrder(GrantingCallback(u))));
    es := es + [Arrive(FindOrder(GrantingCallback(u)))];
  }

  lemma FindsTrial(db: Db, u: Uuid)
    requires u in db.users && db.users[u].orderId == TrialOrder(u)
    ensures Call(db, FindOrder(GrantingCallback(u)), Input(true, 0, u)) ==
            (db, WriteReceipt(GrantingCallback(u), u, db.users[u], TRIAL, Plans.MAX))
  {
    OrderIdRoundTrip(TRIAL, Plans.MAX, u, 0);
  }

  /** The callback has recorded its receipt but not yet updated the row. */
  lemma ReceiptBeforeUpdate(u: Uuid) returns (es: seq<Event>)
    ensures NoAdminEvents(es)
    ensures Schedule(es) ==
            State(Db(map[u := UserRow(Plans.FREE, PENDING, Some(TRIAL_DURATION), TrialOrder(u))],
                     [EventOf(GrantingCallback(u), u, Plans.MAX)]),
                  [Finished, WriteCheckout(u, DIRECT, Plans.PRO),
                   WriteSubscription(u, SubUpdate(Plans.MAX, ACTIVE, None), Some(TrialOrder(u)))])
  {
    var input := Input(true, 0, u);
    es := TrialWritten(u);
    FindsTrial(Schedule(es).db, u);
    ScheduleAfter(es, Advance(2, input));
    es := es + [Advance(2, input)];
    assert Schedule(es).flight[2].WriteReceipt?;
    ScheduleAfter(es, Advance(2, input));
    es := es + [Advance(2, input)];
  }

  /**
   Two checkouts that both read the empty status both write the row. When the first one's callback is
   between its receipt and its update, the update grants the plan under the second order id, for which
   there is no receipt.
   */
  lemma StaleReadLosesReceipt(u: Uuid)
    ensures exists es :: NoAdminEvents(es) && !BillingRuns.Backed(Schedule(es).db)
  {
    var input := Input(true, 0, u);
    if TrialOrder(u) == DirectOrder(u) { OrderIdInjective(TRIAL, Plans.MAX, u, 0, DIRECT, Plans.PRO, u, 0); }
    var es := ReceiptBeforeUpdate(u);
    ScheduleAfter(es, Advance(1, input));
    var es' := es + [Advance(1, input)];
    ScheduleAfter(es', Advance(2, input));
    var es'' := es' + [Advance(2, input)];
    assert Schedule(es'').db.users[u] == UserRow(Plans.MAX, ACTIVE, None, DirectOrder(u));
    assert NoAdminEvents(es'');
  }

  /** A checkout that read the empty status before an admin grant leaves `pending` with a paid plan. */
  lemma StaleReadBreaksStatus(u: Uuid)
    ensures exists es :: u in Schedule(es).db.users && !BillingRuns.StatusAgrees(Schedule(es).db.users[u])
  {
    hide OrderId;
    var input := Input(true, 0, u);
    var grant := WriteSubscription(u, SetPlanUpdate(Plans.MAX), None);
    var e1 := [Register(u)];
    ScheduleAfter([], Register(u));
    assert [] + [Register(u)] == e1;
    var e2 := e1 + [Arrive(ReadForCheckout(u, TRIAL, Plans.MAX))];
    ScheduleAfter(e1, Arrive(ReadForCheckout(u, TRIAL, Plans.MAX)));
    var e3 := e2 + [Arrive(grant)];
    ScheduleAfter(e2, Arrive(grant));
    var e4 := e3 + [Advance(0, input)];
    ScheduleAfter(e3, Advance(0, input));
    var e5 := e4 + [Advance(1, input)];
    ScheduleAfter(e4, Advance(1, input));
    assert Schedule(e5) == State(Db(map[u := UserRow(Plans.MAX, MANUAL, None, "")], []),
                                 [WriteCheckout(u, TRIAL, Plans.MAX), Finished]);
    var e6 := e5 + [Advance(0, input)];
    ScheduleAfter(e5, Advance(0, input));
    assert Schedule(e6).db.users[u].plan == Plans.MAX && Schedule(e6).db.users[u].status == PENDING;
  }
}
