/** What every completed approval leaves behind, be it a webhook's, a card's or a reconciliation's. */
module SalesFulfilment {
  import opened Base
  import opened SalesModel
  import opened SalesInvariant
  import opened SalesTickets
  import opened SalesProtocol
  import opened SalesRuns
  import opened SalesGuarantees

  // ----- Every step advances the tables ---------------------------------------------------------

  lemma SettlingAdvances(s: State, pid: nat)
    requires StateInv(s) && pid in s.procs && (s.procs[pid].Confirming? || s.procs[pid].Releasing?)
    ensures Advances(s.db, RunProc(s, pid).db)
  {
    assert ProcOk(s, s.procs[pid]);
    SettleOrder(s.db, s.procs[pid].order, if s.procs[pid].Confirming? then Confirmed else Expired);
  }

  lemma ApplyingAdvances(s: State, pid: nat)
    requires StateInv(s) && pid in s.procs && s.procs[pid].Applying?
    ensures Advances(s.db, RunProc(s, pid).db)
  {
    var p := s.procs[pid];
    AdvancesReflexive(s.db);
    if p.pay < |s.db.payments| {
      var (from, to) := match p.kind
        case ApprovedEvent => (Pending(p.card), Approved)
        case RejectedEvent => (Pending(p.card), Rejected)
        case ExpiredEvent => (Pending(p.card), PaymentExpired)
        case StillPending => ({PaymentCreated}, Processing)
        case RefundedEvent => (RefundablePayment, PaymentRefunded)
        case ChargedBackEvent => (RefundablePayment, ChargedBack);
      TransitionPaymentKeeps(s.db, p.pay, from, to);
    }
  }

  lemma FlippingAdvances(s: State, pid: nat)
    requires StateInv(s) && pid in s.procs
    requires s.procs[pid].FlippingPaid? || s.procs[pid].RefundingOrder? || s.procs[pid].Sweeping?
    ensures Advances(s.db, RunProc(s, pid).db)
  {
    AdvancesReflexive(s.db);
    match s.procs[pid] {
      case FlippingPaid(_, o) => TransitionOrderKeeps(s.db, o, {AwaitingPayment}, Paid);
      case RefundingOrder(_, o, chargeback) =>
        TransitionOrderKeeps(s.db, o, Refundable, if chargeback then Chargeback else Refunded);
      case Sweeping(due) => if due != [] { TransitionOrderKeeps(s.db, due[0], Unpaid, OrderExpired); }
    }
  }

  lemma TicketingAdvances(s: State, pid: nat)
    requires StateInv(s) && pid in s.procs && (s.procs[pid].Issuing? || s.procs[pid].RefundingTickets?)
    ensures Advances(s.db, RunProc(s, pid).db)
  {
    var p := s.procs[pid];
    assert ProcOk(s, p);
    AdvancesReflexive(s.db);
    if p.RefundingTickets? {
      RefundTicketsKeeps(s.db, p.order);
    } else if p.next < |s.db.orders[p.order].items| && p.next !in p.known && s.db.orders[p.order].items[p.next].TicketItem? {
      InsertTicketKeeps(s.db, p.order, p.next);
    }
  }

  lemma RunAdvances(s: State, pid: nat)
    requires StateInv(s) && pid in s.procs
    ensures Advances(s.db, RunProc(s, pid).db)
  {
    var p := s.procs[pid];
    if p.Confirming? || p.Releasing? {
      SettlingAdvances(s, pid);
    } else if p.Applying? {
      ApplyingAdvances(s, pid);
    } else if p.FlippingPaid? || p.RefundingOrder? || p.Sweeping? {
      FlippingAdvances(s, pid);
    } else if p.Issuing? || p.RefundingTickets? {
      TicketingAdvances(s, pid);
    } else {
      AdvancesReflexive(s.db);
    }
  }

  lemma SameRecordsAdvance(db: Db, db': Db)
    requires SameRecords(db, db')
    ensures Advances(db, db')
  {
  }

  /** What starts, fails or crashes a process edits no table. */
  lemma StartLeavesTables(s: State, a: Action)
    requires a.Deliver? || a.Reconcile? || a.Sweep? || a.Fail? || a.Crash?
    ensures Next(s, a).db == s.db
  {
  }

  lemma ChargeAdvances(s: State, a: Action)
    requires a.ChargePix? || a.ChargeCard?
    ensures Advances(s.db, Next(s, a).db)
  {
    assert Next(s, a).db == s.db || (a.order < |s.db.orders| && Next(s, a).db == NewPayment(s.db, a.order));
  }

  lemma NextAdvances(s: State, a: Action)
    requires StateInv(s)
    ensures Advances(s.db, Next(s, a).db)
  {
    AdvancesReflexive(s.db);
    if IsStaffEdit(a) {
      StaffEditsLeaveOrders(s, a);
      SameRecordsAdvance(s.db, Next(s, a).db);
    } else if a.Checkout? {
      if CreatePendingOrder(s.db, a.e, a.items, a.expiresAt).Some? {
        CheckoutKeeps(s.db, a.e, a.items, a.expiresAt);
      }
    } else if a.MoveTicket? {
      if a.t < |s.db.tickets| {
        TransitionTicketKeeps(s.db, a.t, {s.db.tickets[a.t].status}, a.ticketTo);
      }
    } else if a.Run? {
      if a.pid in s.procs {
        RunAdvances(s, a.pid);
      }
    } else if a.ChargePix? || a.ChargeCard? {
      ChargeAdvances(s, a);
    } else {
      StartLeavesTables(s, a);
    }
  }

  // ----- An approval on its way --------------------------------------------------------------------

  /** The process is somewhere between taking up an approval of order `o` and the end of issuing. */
  predicate OnTheWay(s: State, pid: nat, o: nat) {
    pid in s.procs
    && match s.procs[pid]
       case Applying(_, pay, kind, _) =>
         kind == ApprovedEvent && pay < |s.db.payments| && s.db.payments[pay].orderId == o
       case FlippingPaid(_, q) => q == o
       case Confirming(_, q) => q == o
       case CheckingPaid(_, q) => q == o
       case IssueReading(_, q) => q == o
       case IssueListing(_, q) => q == o
       case Issuing(_, q, _, _) => q == o
       case _ => false
  }

  /**
   * The action takes up an approval of order `o`: a new delivery, a redelivery that was not finished,
   * a reconciliation that finds a pending payment approved, or an approved card charge.
   */
  predicate TakesUpApproval(s: State, a: Action, pid: nat, o: nat) {
    match a
    case Deliver(q, ev, pay, kind) =>
      var (stored, what) := if ev in s.claims then (s.claims[ev].pay, s.claims[ev].kind) else (pay, kind);
      && q == pid && what == ApprovedEvent && stored < |s.db.payments| && s.db.payments[stored].orderId == o
      && (ev in s.claims ==> s.claims[ev].status in {Failed, Received})
    case Reconcile(q, pay, pspStatus) =>
      && q == pid && pspStatus == PspApproved
      && pay < |s.db.payments| && s.db.payments[pay].orderId == o && s.db.payments[pay].status in Pending(false)
    case ChargeCard(q, order, outcome) => q == pid && order == o < |s.db.orders| && outcome == ApprovedEvent
    case _ => false
  }

  /** These actions, and no others, set a process on the way. */
  lemma OnTheWayExactly(s: State, a: Action, pid: nat, o: nat)
    requires pid !in s.procs
    ensures OnTheWay(Next(s, a), pid, o) <==> TakesUpApproval(s, a, pid, o)
  {
    if !TakesUpApproval(s, a, pid, o) && a.Run? && a.pid in s.procs {
      RunStartsNone(s, a.pid, pid);
    }
  }

  lemma RunStartsNone(s: State, runner: nat, pid: nat)
    requires runner in s.procs && pid !in s.procs
    ensures pid !in RunProc(s, runner).procs
  {
  }

  lemma EarlyStep(s: State, pid: nat, o: nat)
    requires StateInv(s) && OnTheWay(s, pid, o)
    requires s.procs[pid].Applying? || s.procs[pid].FlippingPaid? || s.procs[pid].Confirming? || s.procs[pid].IssueListing?
    ensures OnTheWay(RunProc(s, pid), pid, o)
  {
    if s.procs[pid].Confirming? {
      ConfirmKeeps(s, pid);
    }
  }

  /** Where the approval may end: the order is settled otherwise, or all its tickets are there. */
  lemma LateStep(s: State, pid: nat, o: nat)
    requires StateInv(s) && OnTheWay(s, pid, o)
    requires s.procs[pid].CheckingPaid? || s.procs[pid].IssueReading? || s.procs[pid].Issuing?
    ensures OnTheWay(RunProc(s, pid), pid, o) || Acknowledged(RunProc(s, pid).db, o)
  {
    var p := s.procs[pid];
    assert ProcOk(s, p);
    if p.Issuing? && p.next >= |s.db.orders[o].items| {
      assert AllTicketed(s.db, o);
    }
  }

  lemma OwnStep(s: State, pid: nat, o: nat)
    requires StateInv(s) && OnTheWay(s, pid, o)
    ensures OnTheWay(RunProc(s, pid), pid, o) || Acknowledged(RunProc(s, pid).db, o)
  {
    var p := s.procs[pid];
    if p.CheckingPaid? || p.IssueReading? || p.Issuing? {
      LateStep(s, pid, o);
    } else {
      EarlyStep(s, pid, o);
    }
  }

  predicate Interrupts(a: Action, pid: nat) {
    a == Fail(pid) || a == Crash(pid)
  }

  /** Other actions leave the process where it is. */
  lemma OthersLeaveProcess(s: State, a: Action, pid: nat)
    requires pid in s.procs && a != Run(pid) && !Interrupts(a, pid)
    ensures pid in Next(s, a).procs && Next(s, a).procs[pid] == s.procs[pid]
  {
    if a.Run? && a.pid in s.procs {
      RunLeavesProcess(s, a.pid, pid);
    }
  }

  lemma RunLeavesProcess(s: State, runner: nat, pid: nat)
    requires runner in s.procs && pid in s.procs && pid != runner
    ensures pid in RunProc(s, runner).procs && RunProc(s, runner).procs[pid] == s.procs[pid]
  {
    match s.procs[runner] {
      case Applying(_, _, _, _) => ApplyLeavesProcess(s, runner, pid);
      case _ =>
    }
  }

  lemma ApplyLeavesProcess(s: State, runner: nat, pid: nat)
    requires runner in s.procs && s.procs[runner].Applying? && pid in s.procs && pid != runner
    ensures pid in Apply(s, runner, s.procs[runner]).procs
    ensures Apply(s, runner, s.procs[runner]).procs[pid] == s.procs[pid]
  {
  }

  // ----- How long the way is ---------------------------------------------------------------------------

  function ItemCount(db: Db, o: nat): nat {
    if o < |db.orders| then |db.orders[o].items| else 0
  }

  /** The most steps of its own the approval can still take. */
  function StepsLeft(s: State, pid: nat, o: nat): (steps: nat)
    requires OnTheWay(s, pid, o)
    ensures 0 < steps
  {
    var n := ItemCount(s.db, o);
    match s.procs[pid]
    case Applying(_, _, _, _) => n + 7
    case FlippingPaid(_, _) => n + 6
    case Confirming(_, _) => n + 5
    case CheckingPaid(_, _) => n + 4
    case IssueReading(_, _) => n + 3
    case IssueListing(_, _) => n + 2
    case Issuing(_, _, _, next) => if next < n then n - next + 1 else 1
  }

  lemma OwnStepCounts(s: State, pid: nat, o: nat)
    requires StateInv(s) && OnTheWay(s, pid, o) && OnTheWay(RunProc(s, pid), pid, o)
    ensures StepsLeft(RunProc(s, pid), pid, o) < StepsLeft(s, pid, o)
  {
    RunAdvances(s, pid);
    OnTheWayExists(s, pid, o);
  }

  lemma OnTheWayExists(s: State, pid: nat, o: nat)
    requires StateInv(s) && OnTheWay(s, pid, o)
    ensures o < |s.db.orders|
  {
    assert ProcOk(s, s.procs[pid]);
  }

  lemma OtherStepCounts(s: State, a: Action, pid: nat, o: nat)
    requires StateInv(s) && OnTheWay(s, pid, o) && a != Run(pid) && !Interrupts(a, pid)
    ensures OnTheWay(Next(s, a), pid, o) && StepsLeft(Next(s, a), pid, o) == StepsLeft(s, pid, o)
  {
    NextAdvances(s, a);
    OthersLeaveProcess(s, a, pid);
    OnTheWayExists(s, pid, o);
  }

  function OwnSteps(more: seq<Action>, pid: nat): nat {
    if more == [] then 0 else OwnSteps(more[..|more| - 1], pid) + if more[|more| - 1] == Run(pid) then 1 else 0
  }

  predicate Uninterrupted(more: seq<Action>, pid: nat) {
    forall k :: 0 <= k < |more| ==> !Interrupts(more[k], pid)
  }

  /** Each of its own steps takes the approval forward; nobody else's takes it back. */
  lemma {:induction false} ApprovalRuns(s: State, pid: nat, o: nat, more: seq<Action>)
    requires StateInv(s) && OnTheWay(s, pid, o) && Uninterrupted(more, pid)
    ensures var t := ExecFrom(s, more);
      || Acknowledged(t.db, o)
      || (OnTheWay(t, pid, o) && StepsLeft(t, pid, o) + OwnSteps(more, pid) <= StepsLeft(s, pid, o))
    decreases |more|
  {
    if more != [] {
      var n := |more| - 1;
      ApprovalRuns(s, pid, o, more[..n]);
      RunsKeep(s, more[..n]);
      var t := ExecFrom(s, more[..n]);
      if Acknowledged(t.db, o) {
        NextAdvances(t, more[n]);
        AcknowledgedStable(t.db, Next(t, more[n]).db, o);
      } else {
        ApprovalStep(t, more[n], pid, o);
      }
    }
  }

  lemma ApprovalStep(t: State, a: Action, pid: nat, o: nat)
    requires StateInv(t) && OnTheWay(t, pid, o) && !Interrupts(a, pid)
    ensures
      || Acknowledged(Next(t, a).db, o)
      || (OnTheWay(Next(t, a), pid, o)
          && StepsLeft(Next(t, a), pid, o) + (if a == Run(pid) then 1 else 0) <= StepsLeft(t, pid, o))
  {
    if a == Run(pid) {
      OwnStep(t, pid, o);
      if OnTheWay(RunProc(t, pid), pid, o) {
        OwnStepCounts(t, pid, o);
      }
    } else {
      OtherStepCounts(t, a, pid, o);
    }
  }

  // ----- Guarantees ------------------------------------------------------------------------------------

  /** Each ticket item of the order has exactly one ticket and each product none. */
  predicate ExactlyTicketed(db: Db, o: nat) {
    o < |db.orders|
    && forall i :: 0 <= i < |db.orders[o].items| ==>
         Sum(db.tickets, AtItem(o, i)) == IfOf(db.orders[o].items[i].TicketItem?, 1)
  }

  lemma TicketedExactly(db: Db, o: nat)
    requires Inv(db) && AllTicketed(db, o)
    ensures ExactlyTicketed(db, o)
  {
    forall i | 0 <= i < |db.orders[o].items|
      ensures Sum(db.tickets, AtItem(o, i)) == IfOf(db.orders[o].items[i].TicketItem?, 1)
    {
      TicketCountExact(db, o, i);
    }
  }

  /**
   * In every run, a process whose issuing loop has reached the end of its order - whatever it was
   * started by - stands before an order with exactly one ticket per ticket item and none per product.
   */
  lemma IssuingLoopFulfils(actions: seq<Action>, pid: nat)
    requires var s := Exec(actions);
      && pid in s.procs && s.procs[pid].Issuing?
      && (s.procs[pid].order < |s.db.orders| ==> s.procs[pid].next >= |s.db.orders[s.procs[pid].order].items|)
    ensures ExactlyTicketed(Exec(actions).db, Exec(actions).procs[pid].order)
  {
    EveryRunKeeps(actions);
    var s := Exec(actions);
    assert ProcOk(s, s.procs[pid]);
    TicketedExactly(s.db, s.procs[pid].order);
  }

  /** The order left the unpaid states and, while PAID, is exactly ticketed. */
  predicate Fulfilled(db: Db, o: nat) {
    && o < |db.orders| && db.orders[o].status !in Unpaid
    && (db.orders[o].status == Paid ==> ExactlyTicketed(db, o))
  }

  lemma OnceOnTheWay(actions: seq<Action>, pid: nat, o: nat, more: seq<Action>)
    requires OnTheWay(Exec(actions), pid, o) && Uninterrupted(more, pid)
    ensures var s := ExecFrom(Exec(actions), more);
      Fulfilled(s.db, o) || (OnTheWay(s, pid, o) && OwnSteps(more, pid) < ItemCount(Exec(actions).db, o) + 7)
  {
    EveryRunKeeps(actions);
    ApprovalRuns(Exec(actions), pid, o, more);
    RunsKeep(Exec(actions), more);
    var s := ExecFrom(Exec(actions), more);
    if Acknowledged(s.db, o) && s.db.orders[o].status == Paid {
      TicketedExactly(s.db, o);
    }
  }

  /**
   * Any approval, in any run, from the moment a delivery, a redelivery, a reconciliation or a card
   * charge takes it up, and unless it is itself failed or crashed: however everything else interleaves,
   * fails and crashes, its order ends fulfilled after at most seven steps of its own and one for each
   * item of the order, and stays so.
   */
  lemma UninterruptedApprovalFulfils(actions: seq<Action>, a: Action, pid: nat, o: nat, more: seq<Action>)
    requires pid !in Exec(actions).procs && TakesUpApproval(Exec(actions), a, pid, o) && Uninterrupted(more, pid)
    ensures var start := Next(Exec(actions), a); var s := ExecFrom(start, more);
      Fulfilled(s.db, o) || (OnTheWay(s, pid, o) && OwnSteps(more, pid) < ItemCount(start.db, o) + 7)
  {
    OnTheWayExactly(Exec(actions), a, pid, o);
    assert (actions + [a])[..|actions|] == actions;
    OnceOnTheWay(actions + [a], pid, o, more);
  }
}
