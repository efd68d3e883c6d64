/** What every run of the sale protocol keeps, and the guarantees that follow. */
module SalesRuns {
  import opened Base
  import opened SalesModel
  import opened SalesInvariant
  import opened SalesTickets
  import opened SalesStaff
  import opened SalesProtocol

  /** An approval of the order was fully handled: paid and ticketed, or terminal for another reason. */
  ghost predicate Acknowledged(db: Db, o: nat) {
    && o < |db.orders|
    && db.orders[o].status !in Unpaid
    && (db.orders[o].status == Paid ==> AllTicketed(db, o))
  }

  ghost predicate ClaimOk(db: Db, c: Claim) {
    c.status == Processed && c.kind == ApprovedEvent ==>
      c.pay < |db.payments| && Acknowledged(db, db.payments[c.pay].orderId)
  }

  /** The process's event, if it has one, is the approval of a payment of order `o`. */
  predicate Approves(s: State, ev: Option<nat>, o: nat) {
    ev.Some? ==>
      && ev.value in s.claims
      && s.claims[ev.value].kind == ApprovedEvent
      && s.claims[ev.value].pay < |s.db.payments|
      && s.db.payments[s.claims[ev.value].pay].orderId == o
  }

  predicate NotApproval(s: State, ev: Option<nat>) {
    ev.Some? ==> ev.value in s.claims && s.claims[ev.value].kind != ApprovedEvent
  }

  predicate InStatus(db: Db, o: nat, statuses: set<OrderStatus>) {
    o < |db.orders| && db.orders[o].status in statuses
  }

  const PaidStatuses: set<OrderStatus> := {Paid, PartiallyRefunded, Refunded, Chargeback}

  ghost predicate TicketedUpTo(db: Db, o: nat, known: set<nat>, next: nat) {
    && o < |db.orders|
    && (forall i :: i in known ==> HasTicket(db.tickets, o, i))
    && (forall i :: 0 <= i < next && i < |db.orders[o].items| && db.orders[o].items[i].TicketItem? ==>
          HasTicket(db.tickets, o, i))
  }

  /** What is known about the tables at each point of a process, whoever else has acted. */
  ghost predicate ProcOk(s: State, p: Proc) {
    match p
    case Applying(ev, pay, kind, _) =>
      ev.Some? ==> ev.value in s.claims && s.claims[ev.value].pay == pay && s.claims[ev.value].kind == kind
    case FlippingPaid(ev, o) => o < |s.db.orders| && Approves(s, ev, o)
    case Confirming(ev, o) => InStatus(s.db, o, PaidStatuses) && Approves(s, ev, o)
    case CheckingPaid(ev, o) => o < |s.db.orders| && s.db.orders[o].status !in Unpaid && Approves(s, ev, o)
    case IssueReading(ev, o) => InStatus(s.db, o, PaidStatuses) && Approves(s, ev, o)
    case IssueListing(ev, o) => InStatus(s.db, o, PaidStatuses) && Approves(s, ev, o)
    case Issuing(ev, o, known, next) =>
      InStatus(s.db, o, PaidStatuses) && Approves(s, ev, o) && TicketedUpTo(s.db, o, known, next)
    case RefundingOrder(ev, _, _) => NotApproval(s, ev)
    case RefundingTickets(ev, _) => NotApproval(s, ev)
    case Finishing(ev) =>
      NotApproval(s, ev) || (exists o :: Approves(s, ev, o) && Acknowledged(s.db, o))
    case Sweeping(_) => true
    case Releasing(o, _) => InStatus(s.db, o, {OrderExpired})
  }

  function Won(o: nat): nat -> int {
    (w: nat) => if w == o then 1 else 0
  }

  /** A caller won an order exactly once if the order ever reached PAID, and never otherwise. */
  ghost predicate WinsOk(s: State) {
    forall o: nat :: Sum(s.wins, Won(o)) == if InStatus(s.db, o, PaidStatuses) then 1 else 0
  }

  ghost predicate StateInv(s: State) {
    && Inv(s.db)
    && (forall ev :: ev in s.claims ==> ClaimOk(s.db, s.claims[ev]))
    && (forall pid :: pid in s.procs ==> ProcOk(s, s.procs[pid]))
    && WinsOk(s)
  }

  // ----- What other actors' steps cannot take away -----------------------------------------

  lemma AcknowledgedStable(db: Db, db': Db, o: nat)
    requires Advances(db, db') && Acknowledged(db, o)
    ensures Acknowledged(db', o)
  {
    assert db'.orders[o].items == db.orders[o].items && StatusMoves(db.orders[o].status, db'.orders[o].status);
  }

  predicate ClaimsExtend(before: map<nat, Claim>, after: map<nat, Claim>) {
    forall ev :: ev in before ==>
      ev in after && after[ev].pay == before[ev].pay && after[ev].kind == before[ev].kind
  }

  lemma ApprovesStable(s: State, s': State, ev: Option<nat>, o: nat)
    requires Advances(s.db, s'.db) && ClaimsExtend(s.claims, s'.claims) && Approves(s, ev, o)
    ensures Approves(s', ev, o)
  {
  }

  lemma ProcStable(s: State, s': State, p: Proc)
    requires Advances(s.db, s'.db) && ClaimsExtend(s.claims, s'.claims) && ProcOk(s, p)
    ensures ProcOk(s', p)
  {
    match p {
      case Finishing(ev) =>
        if !NotApproval(s, ev) {
          var o :| Approves(s, ev, o) && Acknowledged(s.db, o);
          AcknowledgedStable(s.db, s'.db, o);
          ApprovesStable(s, s', ev, o);
        }
      case Issuing(ev, o, known, next) =>
        ApprovesStable(s, s', ev, o);
        assert s'.db.orders[o].items == s.db.orders[o].items;
      case Releasing(o, _) => assert StatusMoves(s.db.orders[o].status, s'.db.orders[o].status);
      case _ =>
    }
  }

  /** Whether an order ever reached PAID is unchanged, and new orders have not. */
  predicate SameWinners(db: Db, db': Db) {
    && |db.orders| <= |db'.orders|
    && (forall o :: 0 <= o < |db'.orders| ==>
          (db'.orders[o].status in PaidStatuses <==> o < |db.orders| && db.orders[o].status in PaidStatuses))
  }

  /**
   * The frame of every step: if the tables advance and the acting process's own new point
   * is justified, all the other processes and claims stay justified.
   */
  lemma StepFrame(s: State, s': State, pid: nat)
    requires StateInv(s)
    requires Inv(s'.db) && Advances(s.db, s'.db) && ClaimsExtend(s.claims, s'.claims)
    requires forall ev :: ev in s'.claims && ev !in s.claims ==> ClaimOk(s'.db, s'.claims[ev])
    requires forall ev :: ev in s.claims && s'.claims[ev] != s.claims[ev] ==> ClaimOk(s'.db, s'.claims[ev])
    requires forall q :: q in s'.procs && q != pid ==> q in s.procs && s'.procs[q] == s.procs[q]
    requires pid in s'.procs ==> ProcOk(s', s'.procs[pid])
    requires WinsOk(s')
    ensures StateInv(s')
  {
    forall ev | ev in s'.claims ensures ClaimOk(s'.db, s'.claims[ev]) {
      if ev in s.claims && s'.claims[ev] == s.claims[ev] {
        var c := s.claims[ev];
        assert ClaimOk(s.db, c);
        if c.status == Processed && c.kind == ApprovedEvent {
          AcknowledgedStable(s.db, s'.db, s.db.payments[c.pay].orderId);
        }
      }
    }
    forall q | q in s'.procs ensures ProcOk(s', s'.procs[q]) {
      if q != pid {
        ProcStable(s, s', s.procs[q]);
      }
    }
  }

  lemma SameWins(s: State, s': State)
    requires WinsOk(s) && s'.wins == s.wins && SameWinners(s.db, s'.db)
    ensures WinsOk(s')
  {
    forall o: nat ensures InStatus(s'.db, o, PaidStatuses) <==> InStatus(s.db, o, PaidStatuses) {
    }
  }

  lemma AdvancesReflexive(db: Db)
    ensures Advances(db, db)
  {
  }

  /** A step that moves the acting process and leaves claims and winners alone. */
  lemma GotoKeeps(s: State, pid: nat, db': Db, p: Proc)
    requires StateInv(s) && Inv(db') && Advances(s.db, db') && SameWinners(s.db, db')
    requires ProcOk(Goto(s, pid, db', p), p)
    ensures StateInv(Goto(s, pid, db', p))
  {
    var s' := Goto(s, pid, db', p);
    SameWins(s, s');
    StepFrame(s, s', pid);
  }

  lemma TableEditKeeps(s: State, db': Db)
    requires StateInv(s) && Inv(db') && Advances(s.db, db') && SameWinners(s.db, db')
    ensures StateInv(s.(db := db'))
  {
    var s' := s.(db := db');
    SameWins(s, s');
    forall q | q in s'.procs ensures ProcOk(s', s'.procs[q]) {
      ProcStable(s, s', s.procs[q]);
    }
    forall ev | ev in s'.claims ensures ClaimOk(s'.db, s'.claims[ev]) {
      var c := s.claims[ev];
      assert ClaimOk(s.db, c);
      if c.status == Processed && c.kind == ApprovedEvent {
        AcknowledgedStable(s.db, s'.db, s.db.payments[c.pay].orderId);
      }
    }
  }

  lemma StopKeeps(s: State, pid: nat, ev: Option<nat>)
    requires StateInv(s)
    ensures StateInv(Stop(s, pid)) && StateInv(Throw(s, pid, ev))
  {
    AdvancesReflexive(s.db);
    SameWins(s, Stop(s, pid));
    StepFrame(s, Stop(s, pid), pid);
    SameWins(s, Throw(s, pid, ev));
    StepFrame(s, Throw(s, pid, ev), pid);
  }

  // ----- Each kind of process keeps the invariant with every step -----------------------------

  lemma PaymentMoveKeeps(s: State, pid: nat, pay: nat, from: set<PaymentStatus>, to: PaymentStatus, p: Proc)
    requires StateInv(s)
    requires ProcOk(Goto(s, pid, TransitionPayment(s.db, pay, from, to).db, p), p)
    ensures StateInv(Goto(s, pid, TransitionPayment(s.db, pay, from, to).db, p))
  {
    TransitionPaymentKeeps(s.db, pay, from, to);
    GotoKeeps(s, pid, TransitionPayment(s.db, pay, from, to).db, p);
  }

  lemma ApplyKeeps(s: State, pid: nat)
    requires StateInv(s) && pid in s.procs && s.procs[pid].Applying?
    ensures StateInv(RunProc(s, pid))
  {
    var p := s.procs[pid];
    assert ProcOk(s, p);
    if p.pay >= |s.db.payments| {
      StopKeeps(s, pid, p.ev);
    } else {
      var o := s.db.payments[p.pay].orderId;
      match p.kind {
        case ApprovedEvent => PaymentMoveKeeps(s, pid, p.pay, Pending(p.card), Approved, FlippingPaid(p.ev, o));
        case RejectedEvent => PaymentMoveKeeps(s, pid, p.pay, Pending(p.card), Rejected, Finishing(p.ev));
        case ExpiredEvent => PaymentMoveKeeps(s, pid, p.pay, Pending(p.card), PaymentExpired, Finishing(p.ev));
        case StillPending => PaymentMoveKeeps(s, pid, p.pay, {PaymentCreated}, Processing, Finishing(p.ev));
        case RefundedEvent =>
          PaymentMoveKeeps(s, pid, p.pay, RefundablePayment, PaymentRefunded, RefundingOrder(p.ev, o, false));
        case ChargedBackEvent =>
          PaymentMoveKeeps(s, pid, p.pay, RefundablePayment, ChargedBack, RefundingOrder(p.ev, o, true));
      }
    }
  }

  lemma WinRecorded(s: State, s': State, o: nat)
    requires WinsOk(s) && s'.wins == s.wins + [o] && FlipPaid(s.db, o) == Guarded(s'.db, true)
    ensures WinsOk(s')
  {
    forall q: nat ensures Sum(s'.wins, Won(q)) == if InStatus(s'.db, q, PaidStatuses) then 1 else 0 {
      SumPush(s.wins, o, Won(q));
      assert Sum(s.wins, Won(q)) == if InStatus(s.db, q, PaidStatuses) then 1 else 0;
    }
  }

  /** The flip is the single point where a caller wins an order. */
  lemma FlipKeeps(s: State, pid: nat)
    requires StateInv(s) && pid in s.procs && s.procs[pid].FlippingPaid?
    ensures StateInv(RunProc(s, pid))
  {
    var FlippingPaid(ev, o) := s.procs[pid];
    var s' := RunProc(s, pid);
    assert ProcOk(s, s.procs[pid]);
    TransitionOrderKeeps(s.db, o, {AwaitingPayment}, Paid);
    if FlipPaid(s.db, o).changed {
      WinRecorded(s, s', o);
      StepFrame(s, s', pid);
    } else {
      assert s.db.orders[o].status != AwaitingPayment;
      GotoKeeps(s, pid, s.db, s'.procs[pid]);
    }
  }

  lemma ConfirmKeeps(s: State, pid: nat)
    requires StateInv(s) && pid in s.procs && s.procs[pid].Confirming?
    ensures ConfirmForOrder(s.db, s.procs[pid].order).Moved?
    ensures StateInv(RunProc(s, pid))
  {
    var Confirming(ev, o) := s.procs[pid];
    assert ProcOk(s, s.procs[pid]);
    SettleOrder(s.db, o, Confirmed);
    GotoKeeps(s, pid, ConfirmForOrder(s.db, o).db, CheckingPaid(ev, o));
  }

  lemma CheckKeeps(s: State, pid: nat)
    requires StateInv(s) && pid in s.procs
    requires s.procs[pid].CheckingPaid? || s.procs[pid].IssueReading? || s.procs[pid].IssueListing?
    ensures StateInv(RunProc(s, pid))
  {
    var p := s.procs[pid];
    assert ProcOk(s, p);
    AdvancesReflexive(s.db);
    var s' := RunProc(s, pid);
    if p.IssueReading? && !IsPaid(s.db, p.order) {
      StopKeeps(s, pid, p.ev);
    } else {
      KnownItemsHaveTickets(s.db.tickets, p.order);
      if p.CheckingPaid? && !IsPaid(s.db, p.order) {
        assert Approves(s', p.ev, p.order) && Acknowledged(s'.db, p.order);
      }
      GotoKeeps(s, pid, s.db, s'.procs[pid]);
    }
  }

  lemma IssueEnds(s: State, pid: nat)
    requires StateInv(s) && pid in s.procs && s.procs[pid].Issuing?
    requires s.procs[pid].next >= |s.db.orders[s.procs[pid].order].items|
    ensures StateInv(Goto(s, pid, s.db, Finishing(s.procs[pid].ev)))
  {
    var Issuing(ev, o, _, _) := s.procs[pid];
    assert ProcOk(s, s.procs[pid]);
    AdvancesReflexive(s.db);
    var s' := Goto(s, pid, s.db, Finishing(ev));
    assert Approves(s', ev, o) && Acknowledged(s'.db, o);
    GotoKeeps(s, pid, s.db, Finishing(ev));
  }

  lemma IssueSkips(s: State, pid: nat)
    requires StateInv(s) && pid in s.procs && s.procs[pid].Issuing?
    requires var p := s.procs[pid];
      && p.next < |s.db.orders[p.order].items|
      && (p.next in p.known || !s.db.orders[p.order].items[p.next].TicketItem?)
    ensures StateInv(Goto(s, pid, s.db, s.procs[pid].(next := s.procs[pid].next + 1)))
  {
    assert ProcOk(s, s.procs[pid]);
    AdvancesReflexive(s.db);
    GotoKeeps(s, pid, s.db, s.procs[pid].(next := s.procs[pid].next + 1));
  }

  lemma IssueInserts(s: State, pid: nat)
    requires StateInv(s) && pid in s.procs && s.procs[pid].Issuing?
    requires var p := s.procs[pid];
      p.next < |s.db.orders[p.order].items| && s.db.orders[p.order].items[p.next].TicketItem?
    ensures var p := s.procs[pid];
      StateInv(Goto(s, pid, InsertTicket(s.db, p.order, p.next), p.(next := p.next + 1)))
  {
    var p := s.procs[pid];
    assert ProcOk(s, p);
    InsertTicketKeeps(s.db, p.order, p.next);
    GotoKeeps(s, pid, InsertTicket(s.db, p.order, p.next), p.(next := p.next + 1));
  }

  lemma IssueKeeps(s: State, pid: nat)
    requires StateInv(s) && pid in s.procs && s.procs[pid].Issuing?
    ensures StateInv(RunProc(s, pid))
  {
    var p := s.procs[pid];
    assert ProcOk(s, p);
    if p.next >= |s.db.orders[p.order].items| {
      IssueEnds(s, pid);
    } else if p.next in p.known || !s.db.orders[p.order].items[p.next].TicketItem? {
      IssueSkips(s, pid);
    } else {
      IssueInserts(s, pid);
    }
  }

  lemma FlipRefundedKeeps(db: Db, o: nat, to: OrderStatus)
    requires Inv(db) && to in {Refunded, Chargeback}
    ensures var db' := FlipRefunded(db, o, to).db; Inv(db') && Advances(db, db') && SameWinners(db, db')
  {
    TransitionOrderKeeps(db, o, Refundable, to);
  }

  lemma RefundOrderKeeps(s: State, pid: nat)
    requires StateInv(s) && pid in s.procs && s.procs[pid].RefundingOrder?
    ensures StateInv(RunProc(s, pid))
  {
    var RefundingOrder(ev, o, chargeback) := s.procs[pid];
    assert ProcOk(s, s.procs[pid]);
    var to := if chargeback then Chargeback else Refunded;
    FlipRefundedKeeps(s.db, o, to);
    GotoKeeps(s, pid, FlipRefunded(s.db, o, to).db, RefundingTickets(ev, o));
  }

  lemma RefundTicketsStepKeeps(s: State, pid: nat)
    requires StateInv(s) && pid in s.procs && s.procs[pid].RefundingTickets?
    ensures StateInv(RunProc(s, pid))
  {
    var RefundingTickets(ev, o) := s.procs[pid];
    assert ProcOk(s, s.procs[pid]);
    RefundTicketsKeeps(s.db, o);
    GotoKeeps(s, pid, RefundTickets(s.db, o), Finishing(ev));
  }

  /** An approval event is acknowledged only when its order is fulfilled or terminal otherwise. */
  lemma FinishKeeps(s: State, pid: nat)
    requires StateInv(s) && pid in s.procs && s.procs[pid].Finishing?
    ensures StateInv(RunProc(s, pid))
  {
    var ev := s.procs[pid].ev;
    var s' := RunProc(s, pid);
    assert ProcOk(s, s.procs[pid]);
    AdvancesReflexive(s.db);
    SameWins(s, s');
    StepFrame(s, s', pid);
  }

  lemma FlipExpiredKeeps(db: Db, o: nat)
    requires Inv(db)
    ensures var flip := FlipExpired(db, o);
      && Inv(flip.db) && Advances(db, flip.db) && SameWinners(db, flip.db)
      && (flip.changed ==> InStatus(flip.db, o, {OrderExpired}))
  {
    TransitionOrderKeeps(db, o, Unpaid, OrderExpired);
  }

  lemma SweepKeeps(s: State, pid: nat)
    requires StateInv(s) && pid in s.procs && s.procs[pid].Sweeping?
    ensures StateInv(RunProc(s, pid))
  {
    var due := s.procs[pid].due;
    if due == [] {
      StopKeeps(s, pid, None);
    } else {
      FlipExpiredKeeps(s.db, due[0]);
      var flip := FlipExpired(s.db, due[0]);
      GotoKeeps(s, pid, flip.db, if flip.changed then Releasing(due[0], due[1..]) else Sweeping(due[1..]));
    }
  }

  lemma ReleaseKeeps(s: State, pid: nat)
    requires StateInv(s) && pid in s.procs && s.procs[pid].Releasing?
    ensures ReleaseForOrder(s.db, s.procs[pid].order, Expired).Moved?
    ensures StateInv(RunProc(s, pid))
  {
    var Releasing(o, due) := s.procs[pid];
    assert ProcOk(s, s.procs[pid]);
    SettleOrder(s.db, o, Expired);
    GotoKeeps(s, pid, ReleaseForOrder(s.db, o, Expired).db, Sweeping(due));
  }

  lemma RunKeeps(s: State, pid: nat)
    requires StateInv(s) && pid in s.procs
    ensures StateInv(RunProc(s, pid))
  {
    match s.procs[pid] {
      case Applying(_, _, _, _) => ApplyKeeps(s, pid);
      case FlippingPaid(_, _) => FlipKeeps(s, pid);
      case Confirming(_, _) => ConfirmKeeps(s, pid);
      case CheckingPaid(_, _) => CheckKeeps(s, pid);
      case IssueReading(_, _) => CheckKeeps(s, pid);
      case IssueListing(_, _) => CheckKeeps(s, pid);
      case Issuing(_, _, _, _) => IssueKeeps(s, pid);
      case RefundingOrder(_, _, _) => RefundOrderKeeps(s, pid);
      case RefundingTickets(_, _) => RefundTicketsStepKeeps(s, pid);
      case Finishing(_) => FinishKeeps(s, pid);
      case Sweeping(_) => SweepKeeps(s, pid);
      case Releasing(_, _) => ReleaseKeeps(s, pid);
    }
  }

  lemma RefundFailKeeps(s: State, pid: nat)
    requires StateInv(s) && pid in s.procs && (s.procs[pid].RefundingOrder? || s.procs[pid].RefundingTickets?)
    ensures StateInv(Goto(s, pid, s.db, Finishing(s.procs[pid].ev)))
  {
    assert ProcOk(s, s.procs[pid]);
    AdvancesReflexive(s.db);
    GotoKeeps(s, pid, s.db, Finishing(s.procs[pid].ev));
  }

  lemma FailKeeps(s: State, pid: nat)
    requires StateInv(s) && pid in s.procs
    ensures StateInv(FailProc(s, pid))
  {
    var p := s.procs[pid];
    if p.RefundingOrder? || p.RefundingTickets? {
      RefundFailKeeps(s, pid);
    } else if p.Sweeping? || p.Releasing? {
      StopKeeps(s, pid, None);
    } else {
      StopKeeps(s, pid, p.ev);
    }
  }

  lemma ReclaimKeeps(s: State, pid: nat, ev: nat)
    requires StateInv(s) && ev in s.claims
    ensures StateInv(Goto(s, pid, s.db, Applying(Some(ev), s.claims[ev].pay, s.claims[ev].kind, false)))
  {
    AdvancesReflexive(s.db);
    GotoKeeps(s, pid, s.db, Applying(Some(ev), s.claims[ev].pay, s.claims[ev].kind, false));
  }

  lemma NewEventDeliveryKeeps(s: State, pid: nat, ev: nat, pay: nat, kind: Kind)
    requires StateInv(s) && ev !in s.claims
    ensures StateInv(DeliverEvent(s, pid, ev, pay, kind))
  {
    AdvancesReflexive(s.db);
    var s' := DeliverEvent(s, pid, ev, pay, kind);
    SameWins(s, s');
    StepFrame(s, s', pid);
  }

  lemma DeliverKeeps(s: State, pid: nat, ev: nat, pay: nat, kind: Kind)
    requires StateInv(s)
    ensures StateInv(DeliverEvent(s, pid, ev, pay, kind))
  {
    if ev !in s.claims {
      NewEventDeliveryKeeps(s, pid, ev, pay, kind);
    } else {
      ReclaimKeeps(s, pid, ev);
    }
  }

  lemma ChargeKeeps(s: State, pid: nat, o: nat, outcome: Kind)
    requires StateInv(s) && o < |s.db.orders|
    ensures StateInv(s.(db := NewPayment(s.db, o)))
    ensures StateInv(Goto(s, pid, NewPayment(s.db, o), Applying(None, |s.db.payments|, outcome, true)))
  {
    NewPaymentKeeps(s.db, o);
    TableEditKeeps(s, NewPayment(s.db, o));
    GotoKeeps(s, pid, NewPayment(s.db, o), Applying(None, |s.db.payments|, outcome, true));
  }

  lemma EditedKeeps(s: State, r: Result<Db, StaffError>)
    requires StateInv(s)
    requires r.Ok? ==> Inv(r.value) && Advances(s.db, r.value) && SameWinners(s.db, r.value)
    ensures StateInv(Edited(s, r))
  {
    if r.Ok? {
      TableEditKeeps(s, r.value);
    }
  }

  lemma EventEditKeeps(s: State, a: Action)
    requires StateInv(s) && (a.NewEvent? || a.MoveEvent? || a.EditCapacity?)
    ensures StateInv(Next(s, a))
  {
    match a {
      case NewEvent(event) =>
        NewEventKeeps(s.db, event);
        TableEditKeeps(s, s.db.(events := s.db.events + [event]));
      case MoveEvent(e, to) =>
        if TransitionEvent(s.db, e, to).Ok? { TransitionEventKeeps(s.db, e, to); }
        EditedKeeps(s, TransitionEvent(s.db, e, to));
      case EditCapacity(e, c, j) =>
        if ChangeEventCapacity(s.db, e, c, j).Ok? { ChangeEventCapacityKeeps(s.db, e, c, j); }
        EditedKeeps(s, ChangeEventCapacity(s.db, e, c, j));
    }
  }

  lemma NewBatchKeeps(s: State, e: nat, typeOf: Option<nat>, total: nat)
    requires StateInv(s)
    ensures StateInv(Edited(s, CreateSalesBatch(s.db, e, typeOf, total)))
  {
    CreateSalesBatchExact(s.db, e, typeOf, total);
    EditedKeeps(s, CreateSalesBatch(s.db, e, typeOf, total));
  }

  lemma EditQuantityKeeps(s: State, b: nat, total: nat, justified: bool)
    requires StateInv(s)
    ensures StateInv(Edited(s, UpdateBatchQuantity(s.db, b, total, justified)))
  {
    if UpdateBatchQuantity(s.db, b, total, justified).Ok? {
      UpdateBatchQuantityKeeps(s.db, b, total, justified);
    }
    EditedKeeps(s, UpdateBatchQuantity(s.db, b, total, justified));
  }

  lemma MoveBatchKeeps(s: State, b: nat, to: BatchStatus)
    requires StateInv(s)
    ensures StateInv(Edited(s, TransitionBatch(s.db, b, to)))
  {
    if TransitionBatch(s.db, b, to).Ok? {
      TransitionBatchKeeps(s.db, b, to);
    }
    EditedKeeps(s, TransitionBatch(s.db, b, to));
  }

  lemma BatchEditKeeps(s: State, a: Action)
    requires StateInv(s) && (a.NewBatch? || a.EditQuantity? || a.MoveBatch?)
    ensures StateInv(Next(s, a))
  {
    match a {
      case NewBatch(e, typeOf, total) => NewBatchKeeps(s, e, typeOf, total);
      case EditQuantity(b, t, j) => EditQuantityKeeps(s, b, t, j);
      case MoveBatch(b, to) => MoveBatchKeeps(s, b, to);
    }
  }

  lemma CheckoutWins(db: Db, e: nat, items: seq<Item>, expiresAt: int)
    requires CreatePendingOrder(db, e, items, expiresAt).Some?
    ensures SameWinners(db, CreatePendingOrder(db, e, items, expiresAt).value)
  {
    CheckoutExact(db, e, items, expiresAt);
  }

  lemma CheckoutActionKeeps(s: State, e: nat, items: seq<Item>, expiresAt: int)
    requires StateInv(s)
    ensures StateInv(Next(s, Checkout(e, items, expiresAt)))
  {
    if CreatePendingOrder(s.db, e, items, expiresAt).Some? {
      CheckoutKeeps(s.db, e, items, expiresAt);
      CheckoutWins(s.db, e, items, expiresAt);
      TableEditKeeps(s, CreatePendingOrder(s.db, e, items, expiresAt).value);
    }
  }

  lemma MoveTicketKeeps(s: State, t: nat, to: TicketStatus)
    requires StateInv(s)
    ensures StateInv(Next(s, MoveTicket(t, to)))
  {
    if t < |s.db.tickets| && to in TicketTransitions(s.db.tickets[t].status) {
      TransitionTicketKeeps(s.db, t, {s.db.tickets[t].status}, to);
      AdvancesReflexive(s.db);
      TableEditKeeps(s, TransitionTicket(s.db, t, {s.db.tickets[t].status}, to).db);
    }
  }

  lemma IdleStartKeeps(s: State, pid: nat, p: Proc)
    requires StateInv(s) && (p.Sweeping? || (p.Applying? && p.ev == None))
    ensures StateInv(Goto(s, pid, s.db, p))
  {
    AdvancesReflexive(s.db);
    GotoKeeps(s, pid, s.db, p);
  }

  lemma ReconcileKeeps(s: State, pid: nat, pay: nat, pspStatus: PspStatus)
    requires StateInv(s)
    ensures StateInv(Next(s, Reconcile(pid, pay, pspStatus)))
  {
    if StatusToEventType(pspStatus).Some? {
      IdleStartKeeps(s, pid, Applying(None, pay, StatusToEventType(pspStatus).value, false));
    }
  }

  lemma ChargeActionKeeps(s: State, a: Action)
    requires StateInv(s) && (a.ChargePix? || a.ChargeCard?)
    ensures StateInv(Next(s, a))
  {
    if a.order < |s.db.orders| {
      ChargeKeeps(s, if a.ChargeCard? then a.pid else 0, a.order, if a.ChargeCard? then a.outcome else ApprovedEvent);
    }
  }

  lemma StartKeeps(s: State, a: Action)
    requires StateInv(s) && (a.Deliver? || a.Reconcile? || a.Sweep?)
    ensures StateInv(Next(s, a))
  {
    match a {
      case Deliver(pid, ev, pay, kind) => DeliverKeeps(s, pid, ev, pay, kind);
      case Reconcile(pid, pay, pspStatus) => ReconcileKeeps(s, pid, pay, pspStatus);
      case Sweep(pid, now, limit) => IdleStartKeeps(s, pid, Sweeping(DueOrders(s.db.holds, now, limit)));
    }
  }

  lemma NextKeeps(s: State, a: Action)
    requires StateInv(s)
    ensures StateInv(Next(s, a))
  {
    if a.NewEvent? || a.MoveEvent? || a.EditCapacity? {
      EventEditKeeps(s, a);
    } else if a.NewBatch? || a.EditQuantity? || a.MoveBatch? {
      BatchEditKeeps(s, a);
    } else if a.Checkout? {
      CheckoutActionKeeps(s, a.e, a.items, a.expiresAt);
    } else if a.MoveTicket? {
      MoveTicketKeeps(s, a.t, a.ticketTo);
    } else if a.Run? {
      if a.pid in s.procs { RunKeeps(s, a.pid); }
    } else if a.Fail? {
      if a.pid in s.procs { FailKeeps(s, a.pid); }
    } else if a.Crash? {
      StopKeeps(s, a.pid, None);
    } else if a.ChargePix? || a.ChargeCard? {
      ChargeActionKeeps(s, a);
    } else {
      StartKeeps(s, a);
    }
  }

  lemma {:induction false} RunsKeep(s: State, actions: seq<Action>)
    requires StateInv(s)
    ensures StateInv(ExecFrom(s, actions))
    decreases |actions|
  {
    if actions != [] {
      var before := actions[..|actions| - 1];
      RunsKeep(s, before);
      NextKeeps(ExecFrom(s, before), actions[|actions| - 1]);
    }
  }

  lemma EveryRunKeeps(actions: seq<Action>)
    ensures StateInv(Exec(actions))
  {
    RunsKeep(Init, actions);
  }
}
