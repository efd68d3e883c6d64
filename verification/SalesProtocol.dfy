/**
 * The sale protocol as a state machine. Webhook deliveries, reconciliations, card charges
 * and expiry sweeps are processes; each runs one database step at a time, any other actor
 * may act in between, and a process may crash or fail at every point.
 */
module SalesProtocol {
  import opened Base
  import opened SalesModel

  /** What a provider event asks for. StillPending exists only as a card charge's answer. */
  datatype Kind = ApprovedEvent | RejectedEvent | ExpiredEvent | RefundedEvent | ChargedBackEvent | StillPending

  datatype PspStatus =
    | PspApproved | PspRejected | PspExpired | PspCancelled | PspRefunded | PspPartiallyRefunded
    | PspChargedBack | PspPending

  function StatusToEventType(status: PspStatus): Option<Kind> {
    match status
    case PspApproved => Some(ApprovedEvent)
    case PspRejected => Some(RejectedEvent)
    case PspExpired => Some(ExpiredEvent)
    case PspCancelled => Some(ExpiredEvent)
    case PspRefunded => Some(RefundedEvent)
    case PspPartiallyRefunded => Some(RefundedEvent)
    case PspChargedBack => Some(ChargedBackEvent)
    case PspPending => None
  }

  datatype ClaimStatus = Received | Processed | Failed

  /** A stored provider event; its id names one event, so its content never changes. */
  datatype Claim = Claim(pay: nat, kind: Kind, status: ClaimStatus)

  /** Where a process stands: the database step it is about to take. */
  datatype Proc =
    | Applying(ev: Option<nat>, pay: nat, kind: Kind, card: bool)
    | FlippingPaid(ev: Option<nat>, order: nat)
    | Confirming(ev: Option<nat>, order: nat)
    | CheckingPaid(ev: Option<nat>, order: nat)
    | IssueReading(ev: Option<nat>, order: nat)
    | IssueListing(ev: Option<nat>, order: nat)
    | Issuing(ev: Option<nat>, order: nat, known: set<nat>, next: nat)
    | RefundingOrder(ev: Option<nat>, order: nat, chargeback: bool)
    | RefundingTickets(ev: Option<nat>, order: nat)
    | Finishing(ev: Option<nat>)
    | Sweeping(due: seq<nat>)
    | Releasing(order: nat, due: seq<nat>)

  /** `wins` records, in order, every order whose guarded flip to PAID some caller won. */
  datatype State = State(db: Db, claims: map<nat, Claim>, procs: map<nat, Proc>, wins: seq<nat>)

  const Init := State(EmptyDb, map[], map[], [])

  datatype Action =
    | NewEvent(event: Event)
    | MoveEvent(e: nat, eventTo: EventStatus)
    | EditCapacity(e: nat, capacity: int, justified: bool)
    | NewBatch(e: nat, typeOf: Option<nat>, total: nat)
    | EditQuantity(b: nat, total: nat, justified: bool)
    | MoveBatch(b: nat, batchTo: BatchStatus)
    | Checkout(e: nat, items: seq<Item>, expiresAt: int)
    | ChargePix(order: nat)
    | ChargeCard(pid: nat, order: nat, outcome: Kind)
    | Deliver(pid: nat, ev: nat, pay: nat, kind: Kind)
    | Reconcile(pid: nat, pay: nat, pspStatus: PspStatus)
    | Sweep(pid: nat, now: int, limit: nat)
    | MoveTicket(t: nat, ticketTo: TicketStatus)
    | Run(pid: nat)
    | Fail(pid: nat)
    | Crash(pid: nat)

  // ----- One step -----------------------------------------------------------------------

  function Goto(s: State, pid: nat, db: Db, p: Proc): State {
    s.(db := db, procs := s.procs[pid := p])
  }

  function Stop(s: State, pid: nat): State {
    s.(procs := s.procs - {pid})
  }

  function Mark(s: State, ev: Option<nat>, status: ClaimStatus): State {
    if ev.Some? && ev.value in s.claims then
      s.(claims := s.claims[ev.value := s.claims[ev.value].(status := status)])
    else s
  }

  /** An exception ends the process and marks its provider event FAILED. */
  function Throw(s: State, pid: nat, ev: Option<nat>): State {
    Mark(Stop(s, pid), ev, Failed)
  }

  function Pending(card: bool): set<PaymentStatus> {
    if card then {PaymentCreated} else {PaymentCreated, Processing}
  }

  const RefundablePayment: set<PaymentStatus> := {Approved, PaymentPartiallyRefunded, Disputed}

  function Apply(s: State, pid: nat, p: Proc): State
    requires p.Applying?
  {
    if p.pay >= |s.db.payments| then Throw(s, pid, p.ev)
    else
      var order := s.db.payments[p.pay].orderId;
      match p.kind
      case ApprovedEvent =>
        Goto(s, pid, TransitionPayment(s.db, p.pay, Pending(p.card), Approved).db, FlippingPaid(p.ev, order))
      case RejectedEvent =>
        Goto(s, pid, TransitionPayment(s.db, p.pay, Pending(p.card), Rejected).db, Finishing(p.ev))
      case ExpiredEvent =>
        Goto(s, pid, TransitionPayment(s.db, p.pay, Pending(p.card), PaymentExpired).db, Finishing(p.ev))
      case StillPending =>
        Goto(s, pid, TransitionPayment(s.db, p.pay, {PaymentCreated}, Processing).db, Finishing(p.ev))
      case RefundedEvent =>
        Goto(s, pid, TransitionPayment(s.db, p.pay, RefundablePayment, PaymentRefunded).db,
             RefundingOrder(p.ev, order, false))
      case ChargedBackEvent =>
        Goto(s, pid, TransitionPayment(s.db, p.pay, RefundablePayment, ChargedBack).db,
             RefundingOrder(p.ev, order, true))
  }

  predicate IsPaid(db: Db, o: nat) {
    o < |db.orders| && db.orders[o].status == Paid
  }

  function IssueOne(s: State, pid: nat, p: Proc): State
    requires p.Issuing?
  {
    if p.order >= |s.db.orders| || p.next >= |s.db.orders[p.order].items| then
      Goto(s, pid, s.db, Finishing(p.ev))
    else if p.next in p.known || !s.db.orders[p.order].items[p.next].TicketItem? then
      Goto(s, pid, s.db, p.(next := p.next + 1))
    else Goto(s, pid, InsertTicket(s.db, p.order, p.next), p.(next := p.next + 1))
  }

  function RunProc(s: State, pid: nat): State
    requires pid in s.procs
  {
    var p := s.procs[pid];
    match p
    case Applying(_, _, _, _) => Apply(s, pid, p)
    case FlippingPaid(ev, o) =>
      var r := FlipPaid(s.db, o);
      if r.changed then Goto(s, pid, r.db, Confirming(ev, o)).(wins := s.wins + [o])
      else Goto(s, pid, s.db, CheckingPaid(ev, o))
    case Confirming(ev, o) =>
      (match ConfirmForOrder(s.db, o)
       case Moved(db', _) => Goto(s, pid, db', CheckingPaid(ev, o))
       case Inconsistent(_) => Throw(s, pid, ev))
    case CheckingPaid(ev, o) =>
      Goto(s, pid, s.db, if IsPaid(s.db, o) then IssueReading(ev, o) else Finishing(ev))
    case IssueReading(ev, o) =>
      if IsPaid(s.db, o) then Goto(s, pid, s.db, IssueListing(ev, o)) else Throw(s, pid, ev)
    case IssueListing(ev, o) => Goto(s, pid, s.db, Issuing(ev, o, KnownItems(s.db.tickets, o), 0))
    case Issuing(_, _, _, _) => IssueOne(s, pid, p)
    case RefundingOrder(ev, o, chargeback) =>
      Goto(s, pid, FlipRefunded(s.db, o, if chargeback then Chargeback else Refunded).db, RefundingTickets(ev, o))
    case RefundingTickets(ev, o) => Goto(s, pid, RefundTickets(s.db, o), Finishing(ev))
    case Finishing(ev) => Mark(Stop(s, pid), ev, Processed)
    case Sweeping(due) =>
      if due == [] then Stop(s, pid)
      else
        var r := FlipExpired(s.db, due[0]);
        Goto(s, pid, r.db, if r.changed then Releasing(due[0], due[1..]) else Sweeping(due[1..]))
    case Releasing(o, due) =>
      (match ReleaseForOrder(s.db, o, Expired)
       case Moved(db', _) => Goto(s, pid, db', Sweeping(due))
       case Inconsistent(_) => Stop(s, pid))
  }

  /** Settling a refund swallows its errors; everywhere else an error marks the event FAILED. */
  function FailProc(s: State, pid: nat): State
    requires pid in s.procs
  {
    match s.procs[pid]
    case RefundingOrder(ev, _, _) => Goto(s, pid, s.db, Finishing(ev))
    case RefundingTickets(ev, _) => Goto(s, pid, s.db, Finishing(ev))
    case Sweeping(_) => Stop(s, pid)
    case Releasing(_, _) => Stop(s, pid)
    case _ => Throw(s, pid, s.procs[pid].ev)
  }

  /** Insert-or-reclaim: a new event, or one whose earlier processing did not finish. */
  function DeliverEvent(s: State, pid: nat, ev: nat, pay: nat, kind: Kind): State {
    if ev !in s.claims then
      Goto(s, pid, s.db, Applying(Some(ev), pay, kind, false)).(claims := s.claims[ev := Claim(pay, kind, Received)])
    else if s.claims[ev].status in {Failed, Received} then
      Goto(s, pid, s.db, Applying(Some(ev), s.claims[ev].pay, s.claims[ev].kind, false))
    else s
  }

  function NewPayment(db: Db, o: nat): Db {
    db.(payments := db.payments + [Payment(o, PaymentCreated)])
  }

  function Edited(s: State, r: Result<Db, StaffError>): State {
    match r
    case Ok(db') => s.(db := db')
    case Err(_) => s
  }

  /** An action that is not enabled changes nothing. */
  function Next(s: State, a: Action): State {
    match a
    case NewEvent(event) => s.(db := s.db.(events := s.db.events + [event]))
    case MoveEvent(e, to) => Edited(s, TransitionEvent(s.db, e, to))
    case EditCapacity(e, capacity, justified) => Edited(s, ChangeEventCapacity(s.db, e, capacity, justified))
    case NewBatch(e, typeOf, total) => Edited(s, CreateSalesBatch(s.db, e, typeOf, total))
    case EditQuantity(b, total, justified) => Edited(s, UpdateBatchQuantity(s.db, b, total, justified))
    case MoveBatch(b, to) => Edited(s, TransitionBatch(s.db, b, to))
    case Checkout(e, items, expiresAt) =>
      (match CreatePendingOrder(s.db, e, items, expiresAt) case Some(db') => s.(db := db') case None => s)
    case ChargePix(o) => if o < |s.db.orders| then s.(db := NewPayment(s.db, o)) else s
    case ChargeCard(pid, o, outcome) =>
      if o < |s.db.orders| && pid !in s.procs && outcome in {ApprovedEvent, RejectedEvent, StillPending} then
        Goto(s, pid, NewPayment(s.db, o), Applying(None, |s.db.payments|, outcome, true))
      else s
    case Deliver(pid, ev, pay, kind) => if pid in s.procs then s else DeliverEvent(s, pid, ev, pay, kind)
    case Reconcile(pid, pay, pspStatus) =>
      if pid !in s.procs && pay < |s.db.payments| && s.db.payments[pay].status in Pending(false)
        && StatusToEventType(pspStatus).Some? then
        Goto(s, pid, s.db, Applying(None, pay, StatusToEventType(pspStatus).value, false))
      else s
    case Sweep(pid, now, limit) =>
      if pid in s.procs then s else Goto(s, pid, s.db, Sweeping(DueOrders(s.db.holds, now, limit)))
    case MoveTicket(t, to) =>
      if t < |s.db.tickets| && to in TicketTransitions(s.db.tickets[t].status) then
        s.(db := TransitionTicket(s.db, t, {s.db.tickets[t].status}, to).db)
      else s
    case Run(pid) => if pid in s.procs then RunProc(s, pid) else s
    case Fail(pid) => if pid in s.procs then FailProc(s, pid) else s
    case Crash(pid) => Stop(s, pid)
  }

  function ExecFrom(s: State, actions: seq<Action>): State {
    if actions == [] then s else Next(ExecFrom(s, actions[..|actions| - 1]), actions[|actions| - 1])
  }

  /** The state after a run: any sequence of actions whatsoever, from empty tables. */
  function Exec(actions: seq<Action>): State {
    ExecFrom(Init, actions)
  }
}
