/** The guarantees of the sale protocol, for every run of any length with any interleaving. */
module SalesGuarantees {
  import opened Base
  import opened SalesModel
  import opened SalesInvariant
  import opened SalesTickets
  import opened SalesStaff
  import opened SalesProtocol
  import opened SalesRuns

  /** No oversell: tickets ever issued <= sold + reserved <= quantity, batch by batch. */
  lemma NoOversell(actions: seq<Action>, b: nat)
    requires b < |Exec(actions).db.batches|
    ensures var db := Exec(actions).db;
      IssuedFor(db, b) <= db.batches[b].sold + db.batches[b].reserved <= db.batches[b].total
  {
    EveryRunKeeps(actions);
    TicketsWithinCommitted(Exec(actions).db, b);
  }

  /** Counters are conserved: reserved is the sum of ACTIVE holds, sold that of CONFIRMED ones. */
  lemma CounterConservation(actions: seq<Action>, b: nat)
    requires b < |Exec(actions).db.batches|
    ensures var db := Exec(actions).db;
      && db.batches[b].reserved == Sum(db.holds, HeldIn(b, Active))
      && db.batches[b].sold == Sum(db.holds, HeldIn(b, Confirmed))
  {
    EveryRunKeeps(actions);
  }

  /** The "counters inconsistent" throws of confirm and release are unreachable. */
  lemma CountersNeverInconsistent(actions: seq<Action>, pid: nat)
    requires pid in Exec(actions).procs
    ensures var s := Exec(actions); var p := s.procs[pid];
      && (p.Confirming? ==> ConfirmForOrder(s.db, p.order).Moved?)
      && (p.Releasing? ==> ReleaseForOrder(s.db, p.order, Expired).Moved?)
  {
    EveryRunKeeps(actions);
    var s := Exec(actions);
    if s.procs[pid].Confirming? {
      ConfirmKeeps(s, pid);
    } else if s.procs[pid].Releasing? {
      ReleaseKeeps(s, pid);
    }
  }

  /** Sold or returned, never both: a hold's status agrees with the fate of its order. */
  lemma SoldOrReturned(actions: seq<Action>, h: nat)
    requires h < |Exec(actions).db.holds|
    ensures var db := Exec(actions).db; var hold := db.holds[h];
      && hold.orderId < |db.orders|
      && (hold.status == Confirmed ==> ReachedPaid(db.orders[hold.orderId].status))
      && (hold.status == Expired ==> db.orders[hold.orderId].status == OrderExpired)
      && (db.orders[hold.orderId].status == AwaitingPayment ==> hold.status == Active)
  {
    EveryRunKeeps(actions);
    assert HoldAgrees(Exec(actions).db, Exec(actions).db.holds[h]);
  }

  /** The flip to PAID is won at most once per order, and was won exactly if the order ever was PAID. */
  lemma PaidAtMostOnce(actions: seq<Action>, o: nat)
    ensures var s := Exec(actions);
      && Sum(s.wins, Won(o)) <= 1
      && (Sum(s.wins, Won(o)) == 1 <==> o < |s.db.orders| && ReachedPaid(s.db.orders[o].status))
  {
    EveryRunKeeps(actions);
  }

  /** An item never has two tickets; products and items of unpaid orders have none. */
  lemma AtMostOneTicketPerItem(actions: seq<Action>, o: nat, i: nat)
    ensures var db := Exec(actions).db;
      && Sum(db.tickets, AtItem(o, i)) <= 1
      && (Sum(db.tickets, AtItem(o, i)) == 1 ==>
            && o < |db.orders| && i < |db.orders[o].items|
            && db.orders[o].items[i].TicketItem? && ReachedPaid(db.orders[o].status))
  {
    EveryRunKeeps(actions);
    TicketCountExact(Exec(actions).db, o, i);
  }

  /**
   * No paid webhook is lost: once an approval event is stored as PROCESSED, its order has
   * left the unpaid states, and while it is PAID each ticket item has exactly one ticket,
   * however often deliveries were duplicated, reordered, failed or crashed before.
   */
  lemma ProcessedApprovalIsFulfilled(actions: seq<Action>, ev: nat)
    requires var s := Exec(actions);
      ev in s.claims && s.claims[ev].kind == ApprovedEvent && s.claims[ev].status == Processed
    ensures var s := Exec(actions); var pay := s.claims[ev].pay;
      && pay < |s.db.payments|
      && var o := s.db.payments[pay].orderId;
      && o < |s.db.orders| && s.db.orders[o].status !in Unpaid
      && (s.db.orders[o].status == Paid ==>
            forall i :: 0 <= i < |s.db.orders[o].items| && s.db.orders[o].items[i].TicketItem? ==>
              Sum(s.db.tickets, AtItem(o, i)) == 1)
  {
    EveryRunKeeps(actions);
    var s := Exec(actions);
    assert ClaimOk(s.db, s.claims[ev]);
    var o := s.db.payments[s.claims[ev].pay].orderId;
    forall i | 0 <= i < |s.db.orders[o].items| && s.db.orders[o].items[i].TicketItem? && s.db.orders[o].status == Paid
      ensures Sum(s.db.tickets, AtItem(o, i)) == 1
    {
      TicketCountExact(s.db, o, i);
    }
  }

  /** The capacity chain in every run. */
  lemma CapacityChainHolds(actions: seq<Action>, e: nat)
    requires e < |Exec(actions).db.events|
    ensures var db := Exec(actions).db;
      && Sum(db.batches, SoldOrReserved(e)) <= Sum(db.batches, Quantity(e))
      && (db.events[e].capacity.Some? ==> Sum(db.batches, Quantity(e)) <= db.events[e].capacity.value)
  {
    EveryRunKeeps(actions);
    CapacityChain(Exec(actions).db, e);
  }

  // ----- What the protocol does not do: holds stranded by a crash ------------------------------

  predicate Settles(p: Proc, o: nat) {
    (p.Confirming? || p.Releasing?) && p.order == o
  }

  /** The order was paid or expired, and nobody is left who would settle its holds. */
  ghost predicate Stranded(s: State, o: nat) {
    && o < |s.db.orders| && s.db.orders[o].status !in Unpaid
    && (forall pid :: pid in s.procs ==> !Settles(s.procs[pid], o))
  }

  ghost predicate SameHoldsOf(db: Db, db': Db, o: nat) {
    && |db.holds| <= |db'.holds|
    && (forall k :: 0 <= k < |db.holds| ==> db'.holds[k].orderId == db.holds[k].orderId)
    && (forall k :: 0 <= k < |db.holds| && db.holds[k].orderId == o ==> db'.holds[k] == db.holds[k])
    && (forall k :: |db.holds| <= k < |db'.holds| ==> db'.holds[k].orderId != o)
  }

  lemma CheckoutSparesHolds(db: Db, e: nat, items: seq<Item>, expiresAt: int, o: nat)
    requires o < |db.orders| && CreatePendingOrder(db, e, items, expiresAt).Some?
    ensures SameHoldsOf(db, CreatePendingOrder(db, e, items, expiresAt).value, o)
  {
    var db1 := db.(orders := db.orders + [Order(e, AwaitingPayment, items, expiresAt)]);
    var db' := CreatePendingOrder(db, e, items, expiresAt).value;
    ReserveEffect(db1, |db.orders|, expiresAt, GroupUnits(items));
    forall k | 0 <= k < |db.holds| ensures db'.holds[k] == db.holds[k] {
      assert db'.holds[..|db.holds|][k] == db.holds[k];
    }
    forall k | |db.holds| <= k < |db'.holds| ensures db'.holds[k].orderId != o {
      var j := k - |db.holds|;
      assert db'.holds[|db.holds| + j] == Hold(GroupUnits(items)[j].batchId, |db.orders|, Active, GroupUnits(items)[j].quantity, expiresAt);
    }
  }

  lemma SettlingSparesHolds(s: State, pid: nat, o: nat)
    requires StateInv(s) && Stranded(s, o) && pid in s.procs
    requires s.procs[pid].Confirming? || s.procs[pid].Releasing?
    ensures SameHoldsOf(s.db, RunProc(s, pid).db, o) && Stranded(RunProc(s, pid), o)
  {
    assert ProcOk(s, s.procs[pid]);
    SettleOrder(s.db, s.procs[pid].order, if s.procs[pid].Confirming? then Confirmed else Expired);
  }

  lemma OtherStepsKeepHolds(s: State, pid: nat)
    requires pid in s.procs && !s.procs[pid].Confirming? && !s.procs[pid].Releasing?
    ensures RunProc(s, pid).db.holds == s.db.holds
  {
  }

  lemma TableStepsStayStranded(s: State, pid: nat, o: nat)
    requires Stranded(s, o) && pid in s.procs && (s.procs[pid].Applying? || s.procs[pid].Issuing?)
    ensures Stranded(RunProc(s, pid), o)
  {
    assert RunProc(s, pid).db.orders == s.db.orders;
  }

  lemma OtherStepsStayStranded(s: State, pid: nat, o: nat)
    requires Stranded(s, o) && pid in s.procs
    requires !s.procs[pid].Confirming? && !s.procs[pid].Releasing?
    ensures Stranded(RunProc(s, pid), o)
  {
    match s.procs[pid] {
      case FlippingPaid(_, q) =>
      case Sweeping(due) =>
      case RefundingOrder(_, _, _) =>
      case Applying(_, _, _, _) => TableStepsStayStranded(s, pid, o);
      case Issuing(_, _, _, _) => TableStepsStayStranded(s, pid, o);
      case _ =>
    }
  }

  lemma RunSparesHolds(s: State, pid: nat, o: nat)
    requires StateInv(s) && Stranded(s, o) && pid in s.procs
    ensures SameHoldsOf(s.db, RunProc(s, pid).db, o) && Stranded(RunProc(s, pid), o)
  {
    if s.procs[pid].Confirming? || s.procs[pid].Releasing? {
      SettlingSparesHolds(s, pid, o);
    } else {
      OtherStepsKeepHolds(s, pid);
      OtherStepsStayStranded(s, pid, o);
    }
  }

  predicate IsStaffEdit(a: Action) {
    a.NewEvent? || a.MoveEvent? || a.EditCapacity? || a.NewBatch? || a.EditQuantity? || a.MoveBatch?
  }

  predicate SameRecords(db: Db, db': Db) {
    db'.holds == db.holds && db'.orders == db.orders && db'.tickets == db.tickets && db'.payments == db.payments
  }

  lemma EditedLeavesRecords(s: State, r: Result<Db, StaffError>)
    requires r.Ok? ==> SameRecords(s.db, r.value)
    ensures SameRecords(s.db, Edited(s, r).db) && Edited(s, r).procs == s.procs
  {
  }

  lemma StaffEditsLeaveOrders(s: State, a: Action)
    requires IsStaffEdit(a)
    ensures SameRecords(s.db, Next(s, a).db) && Next(s, a).procs == s.procs
  {
    match a {
      case NewEvent(_) =>
      case MoveEvent(e, to) => EditedLeavesRecords(s, TransitionEvent(s.db, e, to));
      case EditCapacity(e, c, j) => EditedLeavesRecords(s, ChangeEventCapacity(s.db, e, c, j));
      case NewBatch(e, typeOf, total) => EditedLeavesRecords(s, CreateSalesBatch(s.db, e, typeOf, total));
      case EditQuantity(b, t, j) => EditedLeavesRecords(s, UpdateBatchQuantity(s.db, b, t, j));
      case MoveBatch(b, to) => EditedLeavesRecords(s, TransitionBatch(s.db, b, to));
    }
  }

  /** Starting, failing and crashing processes touch no hold and no order, and settle nothing. */
  lemma StartsLeaveOrders(s: State, a: Action)
    requires !IsStaffEdit(a) && !a.Run? && !a.Checkout?
    ensures var s' := Next(s, a);
      && s'.db.holds == s.db.holds && s'.db.orders == s.db.orders
      && (forall pid :: pid in s'.procs ==>
            (pid in s.procs && s'.procs[pid] == s.procs[pid])
            || s'.procs[pid].Applying? || s'.procs[pid].Sweeping? || s'.procs[pid].Finishing?)
  {
  }

  lemma CheckoutStaysStranded(s: State, e: nat, items: seq<Item>, expiresAt: int, o: nat)
    requires Stranded(s, o)
    ensures var s' := Next(s, Checkout(e, items, expiresAt)); SameHoldsOf(s.db, s'.db, o) && Stranded(s', o)
  {
    if CreatePendingOrder(s.db, e, items, expiresAt).Some? {
      CheckoutSparesHolds(s.db, e, items, expiresAt, o);
      CheckoutExact(s.db, e, items, expiresAt);
    }
  }

  lemma NextSparesHolds(s: State, a: Action, o: nat)
    requires StateInv(s) && Stranded(s, o)
    ensures SameHoldsOf(s.db, Next(s, a).db, o) && Stranded(Next(s, a), o)
  {
    if a.Run? {
      if a.pid in s.procs { RunSparesHolds(s, a.pid, o); }
    } else if a.Checkout? {
      CheckoutStaysStranded(s, a.e, a.items, a.expiresAt, o);
    } else if IsStaffEdit(a) {
      StaffEditsLeaveOrders(s, a);
    } else {
      StartsLeaveOrders(s, a);
    }
  }

  lemma SameHoldsTransitive(a: Db, b: Db, c: Db, o: nat)
    requires SameHoldsOf(a, b, o) && SameHoldsOf(b, c, o)
    ensures SameHoldsOf(a, c, o)
  {
    forall k | 0 <= k < |a.holds| && a.holds[k].orderId == o ensures c.holds[k] == a.holds[k] {
      assert b.holds[k] == a.holds[k];
    }
    forall k | |a.holds| <= k < |c.holds| ensures c.holds[k].orderId != o {
      if k < |b.holds| {
        assert c.holds[k].orderId == b.holds[k].orderId;
      }
    }
  }

  /**
   * If the winner of a paid or expired order is gone before settling, no later retry, sweep
   * or redelivery ever moves that order's holds: its units stay reserved, never sold and
   * never returned, whatever the continuation.
   */
  lemma {:induction false} StrandedForever(s: State, more: seq<Action>, o: nat)
    requires StateInv(s) && Stranded(s, o)
    ensures Stranded(ExecFrom(s, more), o) && SameHoldsOf(s.db, ExecFrom(s, more).db, o)
    decreases |more|
  {
    if more != [] {
      var before := more[..|more| - 1];
      StrandedForever(s, before, o);
      RunsKeep(s, before);
      var mid := ExecFrom(s, before);
      NextSparesHolds(mid, more[|more| - 1], o);
      SameHoldsTransitive(s.db, mid.db, Next(mid, more[|more| - 1]).db, o);
    }
  }

  lemma {:induction false} FreshPid(used: set<nat>) returns (pid: nat)
    ensures forall q :: q in used ==> q < pid
  {
    if used == {} {
      pid := 0;
    } else {
      var q :| q in used;
      var above := FreshPid(used - {q});
      pid := if q < above then above else q + 1;
      assert used == (used - {q}) + {q};
    }
  }

  lemma ExecOne(s: State, a: Action)
    ensures ExecFrom(s, [a]) == Next(s, a)
  {
    assert [a][..0] == [];
  }

  lemma ExecMore(s: State, actions: seq<Action>, a: Action)
    ensures ExecFrom(s, actions + [a]) == Next(ExecFrom(s, actions), a)
  {
    assert (actions + [a])[..|actions|] == actions;
  }

  /** Settling an order whose fate is decided moves each of its ACTIVE holds. */
  lemma SettledHoldMoves(db: Db, k: nat, to: HoldStatus)
    requires Inv(db) && k < |db.holds| && db.holds[k].status == Active
    requires db.holds[k].orderId < |db.orders| && Decided(db.orders[db.holds[k].orderId].status, to)
    ensures var r := ReleaseForOrder(db, db.holds[k].orderId, to);
      r.Moved? && k < |r.db.holds| && r.db.holds[k].status == to
    ensures to == Confirmed ==>
      ConfirmForOrder(db, db.holds[k].orderId) == ReleaseForOrder(db, db.holds[k].orderId, Confirmed)
  {
    SettleOrder(db, db.holds[k].orderId, to);
  }

  /** A process about to settle an order moves each of its ACTIVE holds in its next step. */
  lemma SettlingMovesHold(s: State, pid: nat, k: nat)
    requires StateInv(s) && k < |s.db.holds| && s.db.holds[k].status == Active
    requires pid in s.procs && Settles(s.procs[pid], s.db.holds[k].orderId)
    ensures var s' := Next(s, Run(pid));
      && k < |s'.db.holds|
      && s'.db.holds[k].status == if s.procs[pid].Confirming? then Confirmed else Expired
  {
    assert ProcOk(s, s.procs[pid]);
    SettledHoldMoves(s.db, k, if s.procs[pid].Confirming? then Confirmed else Expired);
  }

  /** A card approval of an unpaid order reaches the point of confirming its holds. */
  lemma CardApprovalConfirms(s: State, pid: nat, o: nat)
    requires o < |s.db.orders| && s.db.orders[o].status == AwaitingPayment && pid !in s.procs
    ensures var s3 := Next(Next(Next(s, ChargeCard(pid, o, ApprovedEvent)), Run(pid)), Run(pid));
      pid in s3.procs && s3.procs[pid] == Confirming(None, o) && s3.db.holds == s.db.holds
  {
    var s1 := Next(s, ChargeCard(pid, o, ApprovedEvent));
    assert s1.procs[pid] == Applying(None, |s.db.payments|, ApprovedEvent, true);
    var s2 := Next(s1, Run(pid));
    assert s2.procs[pid] == FlippingPaid(None, o);
    assert s2.db.orders == s.db.orders && s2.db.holds == s.db.holds;
  }

  /** An unpaid order can still be settled: a card approval pays it and confirms its holds. */
  lemma UnpaidOrderCanSettle(s: State, o: nat, k: nat) returns (more: seq<Action>)
    requires StateInv(s) && o < |s.db.orders| && s.db.orders[o].status in Unpaid
    requires k < |s.db.holds| && s.db.holds[k].orderId == o && s.db.holds[k].status == Active
    ensures k < |ExecFrom(s, more).db.holds| && ExecFrom(s, more).db.holds[k].status == Confirmed
  {
    var pid := FreshPid(s.procs.Keys);
    var charge := ChargeCard(pid, o, ApprovedEvent);
    assert s.db.orders[o].status == AwaitingPayment;
    CardApprovalConfirms(s, pid, o);
    var paid := [charge] + [Run(pid)] + [Run(pid)];
    ExecOne(s, charge);
    ExecMore(s, [charge], Run(pid));
    ExecMore(s, [charge] + [Run(pid)], Run(pid));
    RunsKeep(s, paid);
    var s3 := ExecFrom(s, paid);
    assert s3.procs[pid] == Confirming(None, o) && s3.db.holds == s.db.holds;
    SettlingMovesHold(s3, pid, k);
    ExecMore(s, paid, Run(pid));
    more := paid + [Run(pid)];
  }

  /**
   * Exactly when an ACTIVE hold can still leave that status: its order is unpaid, or some
   * process is about to settle it. Otherwise it is stranded for good.
   */
  lemma HoldCanSettleExactlyUnlessStranded(s: State, k: nat)
    requires StateInv(s) && k < |s.db.holds| && s.db.holds[k].status == Active
    ensures (exists more :: k < |ExecFrom(s, more).db.holds| && ExecFrom(s, more).db.holds[k].status != Active)
      <==> !Stranded(s, s.db.holds[k].orderId)
  {
    var o := s.db.holds[k].orderId;
    assert HoldAgrees(s.db, s.db.holds[k]);
    if Stranded(s, o) {
      forall more ensures k < |ExecFrom(s, more).db.holds| && ExecFrom(s, more).db.holds[k].status == Active {
        StrandedForever(s, more, o);
      }
    } else if s.db.orders[o].status in Unpaid {
      var more := UnpaidOrderCanSettle(s, o, k);
    } else {
      var pid :| pid in s.procs && Settles(s.procs[pid], o);
      SettlingMovesHold(s, pid, k);
      ExecOne(s, Run(pid));
      assert ExecFrom(s, [Run(pid)]).db.holds[k].status != Active;
    }
  }

  /** A sale of one unit whose webhook worker crashes between paying the order and confirming. */
  function SaleBeforeCrash(): State {
    var event := Event(Published, None);
    var batch := Batch(0, Open, 1, 0, 1);
    var hold := Hold(0, 0, Active, 1, 10);
    var order := Order(0, Paid, [TicketItem(0, 0, 500)], 10);
    State(Db([event], [batch], [hold], [order], [], [Payment(0, Approved)]),
          map[7 := Claim(0, ApprovedEvent, Received)], map[1 := Confirming(Some(7), 0)], [0])
  }

  /** The same shop, before anybody ordered and after the order was placed. */
  function OpenShop(): Db {
    Db([Event(Published, None)], [Batch(0, Open, 1, 0, 0)], [], [], [], [])
  }

  function ShopWithOrder(): Db {
    Db([Event(Published, None)], [Batch(0, Open, 1, 0, 1)], [Hold(0, 0, Active, 1, 10)],
       [Order(0, AwaitingPayment, [TicketItem(0, 0, 500)], 10)], [], [])
  }

  lemma OpenShopReachable() returns (actions: seq<Action>)
    ensures Exec(actions) == Init.(db := OpenShop())
  {
    actions := [];
    var s := Init;
    s, actions := ExecPush(s, actions, NewEvent(Event(Published, None)));
    s, actions := ExecPush(s, actions, NewBatch(0, Some(0), 1));
    s, actions := ExecPush(s, actions, MoveBatch(0, Open));
    assert s.db == OpenShop();
  }

  lemma OneUnitCheckout()
    ensures CreatePendingOrder(OpenShop(), 0, [TicketItem(0, 0, 500)], 10) == Some(ShopWithOrder())
  {
    var items := [TicketItem(0, 0, 500)];
    var db1 := OpenShop().(orders := [] + [Order(0, AwaitingPayment, items, 10)]);
    assert items[..0] == [] && GroupUnits(items) == [Line(0, 1)] && [Line(0, 1)][1..] == [];
    assert ReserveLines(db1, 0, 10, [Line(0, 1)]) == ReserveLine(db1, 0, 10, Line(0, 1));
    assert ReserveLine(db1, 0, 10, Line(0, 1)).value == ShopWithOrder();
  }

  /** The order's payment is being approved by a webhook worker that stands at `p`. */
  function ApprovingShop(status: PaymentStatus, p: Proc): State {
    State(ShopWithOrder().(payments := [Payment(0, status)]), map[7 := Claim(0, ApprovedEvent, Received)], map[1 := p], [])
  }

  lemma ApprovalStartReachable() returns (actions: seq<Action>)
    ensures Exec(actions) == ApprovingShop(PaymentCreated, Applying(Some(7), 0, ApprovedEvent, false))
  {
    actions := OpenShopReachable();
    var s := Exec(actions);
    OneUnitCheckout();
    s, actions := ExecPush(s, actions, Checkout(0, [TicketItem(0, 0, 500)], 10));
    s, actions := ExecPush(s, actions, ChargePix(0));
    s, actions := ExecPush(s, actions, Deliver(1, 7, 0, ApprovedEvent));
    assert s.procs == map[1 := Applying(Some(7), 0, ApprovedEvent, false)];
  }

  lemma ApprovalApplies()
    ensures Next(ApprovingShop(PaymentCreated, Applying(Some(7), 0, ApprovedEvent, false)), Run(1))
         == ApprovingShop(Approved, FlippingPaid(Some(7), 0))
  {
  }

  lemma ApprovalPays()
    ensures Next(ApprovingShop(Approved, FlippingPaid(Some(7), 0)), Run(1)) == SaleBeforeCrash()
  {
  }

  lemma SaleBeforeCrashReachable() returns (actions: seq<Action>)
    ensures Exec(actions) == SaleBeforeCrash()
  {
    actions := ApprovalStartReachable();
    var s := Exec(actions);
    ApprovalApplies();
    s, actions := ExecPush(s, actions, Run(1));
    ApprovalPays();
    s, actions := ExecPush(s, actions, Run(1));
  }

  lemma ExecPush(s: State, actions: seq<Action>, a: Action) returns (s': State, actions': seq<Action>)
    requires s == Exec(actions)
    ensures actions' == actions + [a] && s' == Exec(actions') == Next(s, a)
  {
    actions' := actions + [a];
    assert actions'[..|actions|] == actions;
    s' := Exec(actions');
  }

  /** The tables after the crash: the order is paid, nobody is left to confirm its hold. */
  lemma CrashedState()
    ensures var s := Next(SaleBeforeCrash(), Crash(1)); s.db == SaleBeforeCrash().db && Stranded(s, 0)
  {
  }

  lemma ReachableKeeps(s: State, actions: seq<Action>, a: Action)
    requires s == Exec(actions)
    ensures StateInv(Next(s, a))
  {
    EveryRunKeeps(actions);
    NextKeeps(s, a);
  }

  lemma CrashReachable()
    ensures StateInv(Next(SaleBeforeCrash(), Crash(1)))
  {
    var actions := SaleBeforeCrashReachable();
    ReachableKeeps(SaleBeforeCrash(), actions, Crash(1));
  }

  /**
   * The concrete failure: after that crash every retry and every sweep, in any order, leaves
   * the unit reserved.
   */
  lemma CrashStrandsUnit(more: seq<Action>)
    ensures ExecFrom(Next(SaleBeforeCrash(), Crash(1)), more).db.holds != []
    ensures ExecFrom(Next(SaleBeforeCrash(), Crash(1)), more).db.holds[0] == Hold(0, 0, Active, 1, 10)
  {
    CrashedState();
    CrashReachable();
    StrandedForever(Next(SaleBeforeCrash(), Crash(1)), more, 0);
  }

  /** After the crash, with the redelivered approval at the given point of its way. */
  function Redelivered(p: Proc): State {
    Next(SaleBeforeCrash(), Crash(1)).(procs := map[2 := p])
  }

  lemma RedeliveryStarts()
    ensures Next(Next(SaleBeforeCrash(), Crash(1)), Deliver(2, 7, 0, ApprovedEvent))
         == Redelivered(Applying(Some(7), 0, ApprovedEvent, false))
  {
  }

  lemma RedeliveryApplies()
    ensures Next(Redelivered(Applying(Some(7), 0, ApprovedEvent, false)), Run(2)) == Redelivered(FlippingPaid(Some(7), 0))
  {
  }

  lemma RedeliveryFindsItPaid()
    ensures Next(Redelivered(FlippingPaid(Some(7), 0)), Run(2)) == Redelivered(CheckingPaid(Some(7), 0))
  {
  }

  lemma RedeliveryMayIssue()
    ensures Next(Redelivered(CheckingPaid(Some(7), 0)), Run(2)) == Redelivered(IssueReading(Some(7), 0))
  {
  }

  lemma RedeliveryReads()
    ensures Next(Redelivered(IssueReading(Some(7), 0)), Run(2)) == Redelivered(IssueListing(Some(7), 0))
  {
  }

  lemma RedeliveryReachesIssuing()
    ensures Next(Redelivered(IssueListing(Some(7), 0)), Run(2)) == Redelivered(Issuing(Some(7), 0, {}, 0))
  {
    assert KnownItems([], 0) == {};
  }

  lemma RedeliveryTickets()
    ensures var s := Next(Redelivered(Issuing(Some(7), 0, {}, 0)), Run(2));
      s.db.tickets == [Ticket(0, 0, Valid)] && s.db.holds == [Hold(0, 0, Active, 1, 10)]
  {
    assert !HasTicket([], 0, 0);
  }

  /** A redelivery of the lost approval still issues the ticket of the unit that stays reserved. */
  lemma RedeliveryTicketsStrandedUnit() returns (more: seq<Action>)
    ensures var db := ExecFrom(Next(SaleBeforeCrash(), Crash(1)), more).db;
      db.tickets == [Ticket(0, 0, Valid)] && db.holds == [Hold(0, 0, Active, 1, 10)]
  {
    var crashed := Next(SaleBeforeCrash(), Crash(1));
    RedeliveryStarts();
    RedeliveryApplies();
    RedeliveryFindsItPaid();
    RedeliveryMayIssue();
    RedeliveryReads();
    RedeliveryReachesIssuing();
    RedeliveryTickets();
    more := [Deliver(2, 7, 0, ApprovedEvent)];
    ExecOne(crashed, Deliver(2, 7, 0, ApprovedEvent));
    for k := 0 to 6
      invariant ExecFrom(crashed, more) == match k
        case 0 => Redelivered(Applying(Some(7), 0, ApprovedEvent, false))
        case 1 => Redelivered(FlippingPaid(Some(7), 0))
        case 2 => Redelivered(CheckingPaid(Some(7), 0))
        case 3 => Redelivered(IssueReading(Some(7), 0))
        case 4 => Redelivered(IssueListing(Some(7), 0))
        case 5 => Redelivered(Issuing(Some(7), 0, {}, 0))
        case _ => Next(Redelivered(Issuing(Some(7), 0, {}, 0)), Run(2))
    {
      ExecMore(crashed, more, Run(2));
      more := more + [Run(2)];
    }
  }
}
