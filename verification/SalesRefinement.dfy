/** A process that nothing interrupts does to the tables what the service does in one go. */
module SalesRefinement {
  import opened Base
  import opened SalesModel
  import opened SalesInvariant
  import opened SalesProtocol
  import opened SalesRuns
  import T = SalesStore

  // ----- What the services do ----------------------------------------------------------------

  /** From which statuses an event moves its payment; a card charge has just created its own. */
  function MovesFrom(kind: Kind, card: bool): set<PaymentStatus> {
    if kind in {RefundedEvent, ChargedBackEvent} then {Approved, PaymentPartiallyRefunded, Disputed}
    else if card || kind == StillPending then {PaymentCreated}
    else {PaymentCreated, Processing}
  }

  function PaymentMoved(db: Db, pay: nat, kind: Kind, card: bool): Db
    requires pay < |db.payments|
  {
    if db.payments[pay].status in MovesFrom(kind, card)
    then db.(payments := db.payments[pay := Payment(db.payments[pay].orderId, T.PaymentTo(kind))]) else db
  }

  predicate Awaiting(db: Db, o: nat) {
    o < |db.orders| && db.orders[o].status == AwaitingPayment
  }

  /** An order awaiting payment becomes PAID and its holds are confirmed. */
  function MarkedPaid(db: Db, o: nat): Db {
    if !Awaiting(db, o) then db
    else
      var paid := db.(orders := db.orders[o := db.orders[o].(status := Paid)]);
      match ConfirmForOrder(paid, o)
      case Moved(confirmed, _) => confirmed
      case Inconsistent(_) => paid
  }

  /** A PAID order gets its tickets. */
  function Ticketed(db: Db, o: nat): Db {
    match IssueForOrder(db, o) case Some(issued) => issued case None => db
  }

  /** What an applied event comes to, start to end. */
  function Applied(db: Db, pay: nat, kind: Kind, card: bool): Db
    requires pay < |db.payments|
  {
    var o, moved := db.payments[pay].orderId, PaymentMoved(db, pay, kind, card);
    match kind
    case ApprovedEvent => Ticketed(MarkedPaid(moved, o), o)
    case RefundedEvent => T.RefundedOrder(moved, o, Refunded)
    case ChargedBackEvent => T.RefundedOrder(moved, o, Chargeback)
    case _ => moved
  }

  function Marked(claims: map<nat, Claim>, ev: Option<nat>, status: ClaimStatus): map<nat, Claim> {
    if ev.Some? && ev.value in claims then claims[ev.value := Claim(claims[ev.value].pay, claims[ev.value].kind, status)]
    else claims
  }

  // ----- Running alone ---------------------------------------------------------------------------

  /** The process takes `n` steps in a row. */
  function Alone(s: State, pid: nat, n: nat): State
    decreases n
  {
    if n == 0 then s else Alone(Next(s, Run(pid)), pid, n - 1)
  }

  /** The process is over: the tables are `db`, its event is marked and nothing else has changed. */
  function Over(s: State, pid: nat, ev: Option<nat>, status: ClaimStatus, db: Db, won: seq<nat>): State {
    State(db, Marked(s.claims, ev, status), s.procs - {pid}, s.wins + won)
  }

  /** The state with the process at `p` before the tables `db`. */
  function At(s: State, pid: nat, db: Db, p: Proc, won: seq<nat>): State {
    State(db, s.claims, s.procs[pid := p], s.wins + won)
  }

  lemma OverAfterAt(s: State, pid: nat, db: Db, p: Proc, won: seq<nat>, ev: Option<nat>, status: ClaimStatus, db2: Db, won2: seq<nat>)
    ensures Over(At(s, pid, db, p, won), pid, ev, status, db2, won2) == Over(s, pid, ev, status, db2, won + won2)
  {
    assert s.procs[pid := p] - {pid} == s.procs - {pid};
    assert s.wins + won + won2 == s.wins + (won + won2);
  }

  /** One step to `p`, and from there the rest. */
  lemma OneStepThen(s: State, pid: nat, db: Db, p: Proc, won: seq<nat>, n: nat, ev: Option<nat>, db2: Db, won2: seq<nat>)
    requires Next(s, Run(pid)) == At(s, pid, db, p, won)
    requires Alone(At(s, pid, db, p, won), pid, n) == Over(At(s, pid, db, p, won), pid, ev, Processed, db2, won2)
    ensures Alone(s, pid, n + 1) == Over(s, pid, ev, Processed, db2, won + won2)
  {
    OverAfterAt(s, pid, db, p, won, ev, Processed, db2, won2);
  }

  lemma Finishes(s: State, pid: nat, ev: Option<nat>)
    requires pid in s.procs && s.procs[pid] == Finishing(ev)
    ensures Alone(s, pid, 1) == Over(s, pid, ev, Processed, s.db, [])
  {
    assert Next(s, Run(pid)) == Over(s, pid, ev, Processed, s.db, []);
  }

  lemma OverAtOnce(s: State, pid: nat, p: Proc, ev: Option<nat>, db2: Db, won2: seq<nat>, n: nat)
    requires Next(s, Run(pid)) == At(s, pid, s.db, p, [])
    requires Alone(At(s, pid, s.db, p, []), pid, n) == Over(At(s, pid, s.db, p, []), pid, ev, Processed, db2, won2)
    ensures Alone(s, pid, n + 1) == Over(s, pid, ev, Processed, db2, won2)
  {
    OneStepThen(s, pid, s.db, p, [], n, ev, db2, won2);
    assert [] + won2 == won2;
  }

  // ----- Tickets -----------------------------------------------------------------------------------

  lemma IssueStep(s: State, pid: nat)
    requires pid in s.procs && s.procs[pid].Issuing? && s.procs[pid].order < |s.db.orders|
    ensures var p := s.procs[pid]; var items := s.db.orders[p.order].items;
      Next(s, Run(pid)) ==
        if p.next >= |items| then At(s, pid, s.db, Finishing(p.ev), [])
        else At(s, pid, if p.next in p.known || !items[p.next].TicketItem? then s.db else InsertTicket(s.db, p.order, p.next),
                Issuing(p.ev, p.order, p.known, p.next + 1), [])
  {
  }

  /** The issuing steps, taken in a row, are the issuing loop. */
  lemma {:induction false} IssueAlone(s: State, pid: nat) returns (n: nat)
    requires pid in s.procs && s.procs[pid].Issuing? && s.procs[pid].order < |s.db.orders|
    ensures var p := s.procs[pid];
      Alone(s, pid, n) == Over(s, pid, p.ev, Processed, IssueFrom(s.db, p.order, p.known, p.next), [])
    decreases |s.db.orders[s.procs[pid].order].items| - s.procs[pid].next
  {
    var Issuing(ev, o, known, next) := s.procs[pid];
    IssueStep(s, pid);
    if next >= |s.db.orders[o].items| {
      Finishes(At(s, pid, s.db, Finishing(ev), []), pid, ev);
      OverAtOnce(s, pid, Finishing(ev), ev, s.db, [], 1);
      n := 2;
    } else {
      var db1 := if next in known || !s.db.orders[o].items[next].TicketItem? then s.db else InsertTicket(s.db, o, next);
      var s1 := At(s, pid, db1, Issuing(ev, o, known, next + 1), []);
      n := IssueAlone(s1, pid);
      OneStepThen(s, pid, db1, Issuing(ev, o, known, next + 1), [], n, ev, IssueFrom(s.db, o, known, next), []);
      n := n + 1;
    }
  }

  lemma TicketSteps(s: State, pid: nat)
    requires pid in s.procs
    ensures match s.procs[pid]
      case CheckingPaid(ev, o) =>
        Next(s, Run(pid)) == At(s, pid, s.db, if IsPaid(s.db, o) then IssueReading(ev, o) else Finishing(ev), [])
      case IssueReading(ev, o) =>
        Next(s, Run(pid)) == if IsPaid(s.db, o) then At(s, pid, s.db, IssueListing(ev, o), []) else Over(s, pid, ev, Failed, s.db, [])
      case IssueListing(ev, o) => Next(s, Run(pid)) == At(s, pid, s.db, Issuing(ev, o, KnownItems(s.db.tickets, o), 0), [])
      case _ => true
  {
  }

  /** From the check that the order is paid to the last ticket. */
  lemma TicketsAlone(s: State, pid: nat) returns (n: nat)
    requires pid in s.procs && s.procs[pid].CheckingPaid?
    ensures var p := s.procs[pid]; Alone(s, pid, n) == Over(s, pid, p.ev, Processed, Ticketed(s.db, p.order), [])
  {
    var CheckingPaid(ev, o) := s.procs[pid];
    TicketSteps(s, pid);
    if IsPaid(s.db, o) {
      var s1 := At(s, pid, s.db, IssueReading(ev, o), []);
      TicketSteps(s1, pid);
      var s2 := At(s1, pid, s.db, IssueListing(ev, o), []);
      TicketSteps(s2, pid);
      var s3 := At(s2, pid, s.db, Issuing(ev, o, KnownItems(s.db.tickets, o), 0), []);
      n := IssueAlone(s3, pid);
      OverAtOnce(s2, pid, s3.procs[pid], ev, Ticketed(s.db, o), [], n);
      OverAtOnce(s1, pid, s2.procs[pid], ev, Ticketed(s.db, o), [], n + 1);
      OverAtOnce(s, pid, s1.procs[pid], ev, Ticketed(s.db, o), [], n + 2);
      n := n + 3;
    } else {
      Finishes(At(s, pid, s.db, Finishing(ev), []), pid, ev);
      OverAtOnce(s, pid, Finishing(ev), ev, s.db, [], 1);
      n := 2;
    }
  }

  // ----- Payment of the order ------------------------------------------------------------------------

  lemma PaidIsConfirmed(db: Db, o: nat)
    requires Inv(db) && Awaiting(db, o)
    ensures var paid := FlipPaid(db, o);
      && paid.changed && ConfirmForOrder(paid.db, o).Moved? && MarkedPaid(db, o) == ConfirmForOrder(paid.db, o).db
  {
    TransitionOrderKeeps(db, o, {AwaitingPayment}, Paid);
    SettleOrder(FlipPaid(db, o).db, o, Confirmed);
  }

  lemma FlipStep(s: State, pid: nat)
    requires pid in s.procs && s.procs[pid].FlippingPaid? && Inv(s.db)
    ensures var p := s.procs[pid];
      Next(s, Run(pid)) ==
        if Awaiting(s.db, p.order) then At(s, pid, FlipPaid(s.db, p.order).db, Confirming(p.ev, p.order), [p.order])
        else At(s, pid, s.db, CheckingPaid(p.ev, p.order), [])
  {
  }

  lemma ConfirmStep(s: State, pid: nat)
    requires pid in s.procs && s.procs[pid].Confirming? && ConfirmForOrder(s.db, s.procs[pid].order).Moved?
    ensures var p := s.procs[pid];
      Next(s, Run(pid)) == At(s, pid, ConfirmForOrder(s.db, p.order).db, CheckingPaid(p.ev, p.order), [])
  {
  }

  /** From the guarded flip to the last ticket. */
  lemma PaidAlone(s: State, pid: nat) returns (n: nat)
    requires pid in s.procs && s.procs[pid].FlippingPaid? && Inv(s.db)
    ensures var p := s.procs[pid];
      Alone(s, pid, n) == Over(s, pid, p.ev, Processed, Ticketed(MarkedPaid(s.db, p.order), p.order),
                               if Awaiting(s.db, p.order) then [p.order] else [])
  {
    var FlippingPaid(ev, o) := s.procs[pid];
    FlipStep(s, pid);
    if Awaiting(s.db, o) {
      PaidIsConfirmed(s.db, o);
      var s1 := At(s, pid, FlipPaid(s.db, o).db, Confirming(ev, o), [o]);
      ConfirmStep(s1, pid);
      var s2 := At(s1, pid, MarkedPaid(s.db, o), CheckingPaid(ev, o), []);
      n := TicketsAlone(s2, pid);
      OneStepThen(s1, pid, s2.db, s2.procs[pid], [], n, ev, Ticketed(s2.db, o), []);
      OneStepThen(s, pid, s1.db, s1.procs[pid], [o], n + 1, ev, Ticketed(s2.db, o), []);
      n := n + 2;
    } else {
      n := TicketsAlone(At(s, pid, s.db, CheckingPaid(ev, o), []), pid);
      OverAtOnce(s, pid, CheckingPaid(ev, o), ev, Ticketed(s.db, o), [], n);
      n := n + 1;
    }
  }

  // ----- Refunds ---------------------------------------------------------------------------------------

  lemma RefundSteps(s: State, pid: nat)
    requires pid in s.procs
    ensures match s.procs[pid]
      case RefundingOrder(ev, o, chargeback) =>
        Next(s, Run(pid))
        == At(s, pid, FlipRefunded(s.db, o, if chargeback then Chargeback else Refunded).db, RefundingTickets(ev, o), [])
      case RefundingTickets(ev, o) => Next(s, Run(pid)) == At(s, pid, RefundTickets(s.db, o), Finishing(ev), [])
      case _ => true
  {
  }

  lemma RefundAlone(s: State, pid: nat)
    requires pid in s.procs && s.procs[pid].RefundingOrder?
    ensures var p := s.procs[pid];
      Alone(s, pid, 3)
      == Over(s, pid, p.ev, Processed, T.RefundedOrder(s.db, p.order, if p.chargeback then Chargeback else Refunded), [])
  {
    var RefundingOrder(ev, o, chargeback) := s.procs[pid];
    RefundSteps(s, pid);
    var s1 := At(s, pid, FlipRefunded(s.db, o, if chargeback then Chargeback else Refunded).db, RefundingTickets(ev, o), []);
    RefundSteps(s1, pid);
    var s2 := At(s1, pid, RefundTickets(s1.db, o), Finishing(ev), []);
    Finishes(s2, pid, ev);
    OneStepThen(s1, pid, s2.db, Finishing(ev), [], 1, ev, s2.db, []);
    OneStepThen(s, pid, s1.db, s1.procs[pid], [], 2, ev, s2.db, []);
  }

  // ----- A whole event -----------------------------------------------------------------------------------

  /** What an event does next, once its payment is moved. */
  function AfterPayment(p: Proc, o: nat): Proc
    requires p.Applying?
  {
    match p.kind
    case ApprovedEvent => FlippingPaid(p.ev, o)
    case RefundedEvent => RefundingOrder(p.ev, o, false)
    case ChargedBackEvent => RefundingOrder(p.ev, o, true)
    case _ => Finishing(p.ev)
  }

  lemma ApplyStep(s: State, pid: nat)
    requires pid in s.procs && s.procs[pid].Applying? && s.procs[pid].pay < |s.db.payments|
    ensures var p := s.procs[pid]; var o := s.db.payments[p.pay].orderId;
      Next(s, Run(pid)) == At(s, pid, PaymentMoved(s.db, p.pay, p.kind, p.card), AfterPayment(p, o), [])
  {
    assert s.wins + [] == s.wins;
  }

  lemma PaymentMovedKeeps(db: Db, pay: nat, kind: Kind, card: bool)
    requires Inv(db) && pay < |db.payments|
    ensures Inv(PaymentMoved(db, pay, kind, card))
  {
    TransitionPaymentKeeps(db, pay, MovesFrom(kind, card), T.PaymentTo(kind));
  }

  lemma ApprovalStarts(s: State, pid: nat)
    requires Inv(s.db) && pid in s.procs && s.procs[pid].Applying? && s.procs[pid].kind == ApprovedEvent
    requires s.procs[pid].pay < |s.db.payments|
    ensures var p := s.procs[pid]; var o := s.db.payments[p.pay].orderId;
      var moved := PaymentMoved(s.db, p.pay, ApprovedEvent, p.card);
      && Next(s, Run(pid)) == At(s, pid, moved, FlippingPaid(p.ev, o), [])
      && Inv(moved) && Awaiting(moved, o) == Awaiting(s.db, o)
  {
    ApplyStep(s, pid);
    PaymentMovedKeeps(s.db, s.procs[pid].pay, ApprovedEvent, s.procs[pid].card);
  }

  lemma ApprovalAlone(s: State, pid: nat) returns (n: nat)
    requires Inv(s.db) && pid in s.procs && s.procs[pid].Applying? && s.procs[pid].kind == ApprovedEvent
    requires s.procs[pid].pay < |s.db.payments|
    ensures var p := s.procs[pid]; var o := s.db.payments[p.pay].orderId;
      var moved := PaymentMoved(s.db, p.pay, ApprovedEvent, p.card);
      Alone(s, pid, n) == Over(s, pid, p.ev, Processed, Ticketed(MarkedPaid(moved, o), o), if Awaiting(s.db, o) then [o] else [])
  {
    var p := s.procs[pid];
    var o, moved := s.db.payments[p.pay].orderId, PaymentMoved(s.db, p.pay, ApprovedEvent, p.card);
    ApprovalStarts(s, pid);
    n := PaidAlone(At(s, pid, moved, FlippingPaid(p.ev, o), []), pid);
    OneStepThen(s, pid, moved, FlippingPaid(p.ev, o), [], n, p.ev, Ticketed(MarkedPaid(moved, o), o),
                if Awaiting(s.db, o) then [o] else []);
    n := n + 1;
  }

  lemma OtherEventAlone(s: State, pid: nat) returns (n: nat)
    requires pid in s.procs && s.procs[pid].Applying? && s.procs[pid].kind != ApprovedEvent
    requires s.procs[pid].pay < |s.db.payments|
    ensures var p := s.procs[pid];
      Alone(s, pid, n) == Over(s, pid, p.ev, Processed, Applied(s.db, p.pay, p.kind, p.card), [])
  {
    var Applying(ev, pay, kind, card) := s.procs[pid];
    var o, db1 := s.db.payments[pay].orderId, PaymentMoved(s.db, pay, kind, card);
    var q := AfterPayment(s.procs[pid], o);
    ApplyStep(s, pid);
    if kind in {RefundedEvent, ChargedBackEvent} {
      n := 3;
      RefundAlone(At(s, pid, db1, q, []), pid);
    } else {
      n := 1;
      Finishes(At(s, pid, db1, q, []), pid, ev);
    }
    OneStepThen(s, pid, db1, q, [], n, ev, Applied(s.db, pay, kind, card), []);
    n := n + 1;
  }

  /** Which order's payment an event wins: an approval's that finds its order awaiting it. */
  function Won(db: Db, pay: nat, kind: Kind): seq<nat>
    requires pay < |db.payments|
  {
    var o := db.payments[pay].orderId;
    if kind == ApprovedEvent && Awaiting(db, o) then [o] else []
  }

  lemma EventAlone(s: State, pid: nat) returns (n: nat)
    requires Inv(s.db) && pid in s.procs && s.procs[pid].Applying? && s.procs[pid].pay < |s.db.payments|
    ensures var p := s.procs[pid];
      Alone(s, pid, n)
      == Over(s, pid, p.ev, Processed, Applied(s.db, p.pay, p.kind, p.card), Won(s.db, p.pay, p.kind))
  {
    if s.procs[pid].kind == ApprovedEvent {
      n := ApprovalAlone(s, pid);
    } else {
      n := OtherEventAlone(s, pid);
    }
  }

  /**
   * From any reachable state, an event that nothing interrupts - a webhook's, a reconciliation's or a card
   * charge's - ends PROCESSED with exactly what the service does to the tables, and wins its order's
   * payment exactly when it is an approval that found the order awaiting it.
   */
  lemma UninterruptedEventIsService(actions: seq<Action>, pid: nat) returns (n: nat)
    requires var s := Exec(actions);
      pid in s.procs && s.procs[pid].Applying? && s.procs[pid].pay < |s.db.payments|
    ensures var s := Exec(actions); var p := s.procs[pid];
      Alone(s, pid, n)
      == Over(s, pid, p.ev, Processed, Applied(s.db, p.pay, p.kind, p.card), Won(s.db, p.pay, p.kind))
  {
    EveryRunKeeps(actions);
    n := EventAlone(Exec(actions), pid);
  }

  /** An event of a payment that does not exist is marked FAILED, and nothing else happens. */
  lemma UnknownPaymentFails(s: State, pid: nat)
    requires pid in s.procs && s.procs[pid].Applying? && s.procs[pid].pay >= |s.db.payments|
    ensures Alone(s, pid, 1) == Over(s, pid, s.procs[pid].ev, Failed, s.db, [])
  {
    assert Next(s, Run(pid)) == Over(s, pid, s.procs[pid].ev, Failed, s.db, []);
  }

  // ----- How an event is taken up ------------------------------------------------------------------------

  /** A delivery: ignored when its event is PROCESSED, else applied with the content stored under its id. */
  lemma DeliveryTakenUp(s: State, pid: nat, ev: nat, pay: nat, kind: Kind)
    requires pid !in s.procs
    ensures Next(s, Deliver(pid, ev, pay, kind)) ==
      if ev in s.claims && s.claims[ev].status == Processed then s
      else
        var (p, k) := T.Content(s.claims, ev, pay, kind);
        State(s.db, if ev in s.claims then s.claims else s.claims[ev := Claim(pay, kind, Received)],
              s.procs[pid := Applying(Some(ev), p, k, false)], s.wins)
  {
  }

  /** What a provider's status asks for; PENDING asks for nothing. */
  predicate AsksFor(status: PspStatus, kind: Kind) {
    match kind
    case ApprovedEvent => status == PspApproved
    case RejectedEvent => status == PspRejected
    case ExpiredEvent => status in {PspExpired, PspCancelled}
    case RefundedEvent => status in {PspRefunded, PspPartiallyRefunded}
    case ChargedBackEvent => status == PspChargedBack
    case StillPending => false
  }

  /** A reconciliation applies what the provider's status asks for, to a payment that is still pending. */
  lemma ReconcileTakenUp(s: State, pid: nat, pay: nat, status: PspStatus, kind: Kind)
    requires pid !in s.procs && AsksFor(status, kind)
    ensures Next(s, Reconcile(pid, pay, status)) ==
      if pay < |s.db.payments| && s.db.payments[pay].status in {PaymentCreated, Processing}
      then s.(procs := s.procs[pid := Applying(None, pay, kind, false)]) else s
    ensures Next(s, Reconcile(pid, pay, PspPending)) == s
  {
  }

  /** A card charge creates its payment and applies the answer: approved, rejected or still pending. */
  lemma CardChargeTakenUp(s: State, pid: nat, o: nat, outcome: Kind)
    requires pid !in s.procs
    ensures Next(s, ChargeCard(pid, o, outcome)) ==
      if o < |s.db.orders| && outcome in {ApprovedEvent, RejectedEvent, StillPending}
      then s.(db := s.db.(payments := s.db.payments + [Payment(o, PaymentCreated)]),
              procs := s.procs[pid := Applying(None, |s.db.payments|, outcome, true)])
      else s
  {
  }

  /** What a delivery comes to, start to end: the webhook's answer. */
  function Webhook(s: State, ev: nat, pay: nat, kind: Kind): State {
    var (p, k) := T.Content(s.claims, ev, pay, kind);
    if ev in s.claims && s.claims[ev].status == Processed then s
    else if p < |s.db.payments| then
      State(Applied(s.db, p, k, false), s.claims[ev := Claim(p, k, Processed)], s.procs, s.wins + Won(s.db, p, k))
    else State(s.db, s.claims[ev := Claim(p, k, Failed)], s.procs, s.wins)
  }

  lemma TakenUpThenOver(s: State, pid: nat, ev: nat, pay: nat, kind: Kind) returns (n: nat)
    requires Inv(s.db) && pid !in s.procs && !(ev in s.claims && s.claims[ev].status == Processed)
    ensures Alone(Next(s, Deliver(pid, ev, pay, kind)), pid, n) == Webhook(s, ev, pay, kind)
  {
    var start := Next(s, Deliver(pid, ev, pay, kind));
    DeliveryTakenUp(s, pid, ev, pay, kind);
    assert start.procs - {pid} == s.procs;
    if start.procs[pid].pay < |s.db.payments| {
      n := EventAlone(start, pid);
    } else {
      n := 1;
      UnknownPaymentFails(start, pid);
      assert s.wins + [] == s.wins;
    }
  }

  /**
   * From any reachable state, a delivery that nothing interrupts does exactly what the webhook does: a
   * PROCESSED event is ignored; otherwise the content stored under its id is applied start to end and the
   * event ends PROCESSED, or, when its payment does not exist, FAILED with the tables as they were.
   */
  lemma UninterruptedDeliveryIsWebhook(actions: seq<Action>, pid: nat, ev: nat, pay: nat, kind: Kind) returns (n: nat)
    requires pid !in Exec(actions).procs
    ensures Alone(Next(Exec(actions), Deliver(pid, ev, pay, kind)), pid, n) == Webhook(Exec(actions), ev, pay, kind)
  {
    var s := Exec(actions);
    if ev in s.claims && s.claims[ev].status == Processed {
      n := 0;
    } else {
      EveryRunKeeps(actions);
      n := TakenUpThenOver(s, pid, ev, pay, kind);
    }
  }

  // ----- The sweep -----------------------------------------------------------------------------------------

  lemma SweepStep(s: State, pid: nat)
    requires pid in s.procs && s.procs[pid].Sweeping?
    ensures var due := s.procs[pid].due;
      Next(s, Run(pid)) ==
        if due == [] then s.(procs := s.procs - {pid})
        else if FlipExpired(s.db, due[0]).changed
        then s.(db := FlipExpired(s.db, due[0]).db, procs := s.procs[pid := Releasing(due[0], due[1..])])
        else s.(procs := s.procs[pid := Sweeping(due[1..])])
  {
  }

  lemma ReleaseStep(s: State, pid: nat)
    requires pid in s.procs && s.procs[pid].Releasing? && ReleaseForOrder(s.db, s.procs[pid].order, Expired).Moved?
    ensures var p := s.procs[pid];
      Next(s, Run(pid))
      == s.(db := ReleaseForOrder(s.db, p.order, Expired).db, procs := s.procs[pid := Sweeping(p.due)])
  {
  }

  /** One order of the sweep, flipped and released, or passed over. */
  lemma SweepTurnAlone(s: State, pid: nat) returns (n: nat)
    requires Inv(s.db) && pid in s.procs && s.procs[pid].Sweeping? && s.procs[pid].due != []
    ensures var due := s.procs[pid].due; var flip := FlipExpired(s.db, due[0]);
      && (flip.changed ==> ReleaseForOrder(flip.db, due[0], Expired).Moved?)
      && Alone(s, pid, n)
         == s.(db := if flip.changed then ReleaseForOrder(flip.db, due[0], Expired).db else s.db,
               procs := s.procs[pid := Sweeping(due[1..])])
  {
    var due := s.procs[pid].due;
    SweepStep(s, pid);
    n := 1;
    if FlipExpired(s.db, due[0]).changed {
      T.SweepOneKeeps(s.db, due[0]);
      ReleaseStep(Next(s, Run(pid)), pid);
      assert s.procs[pid := Releasing(due[0], due[1..])][pid := Sweeping(due[1..])] == s.procs[pid := Sweeping(due[1..])];
      n := 2;
    }
  }

  lemma {:induction false} AlonePlus(s: State, pid: nat, n: nat, m: nat)
    ensures Alone(s, pid, n + m) == Alone(Alone(s, pid, n), pid, m)
    decreases n
  {
    if n > 0 {
      AlonePlus(Next(s, Run(pid)), pid, n - 1, m);
    }
  }

  lemma {:induction false} SweepAlone(s: State, pid: nat) returns (n: nat)
    requires Inv(s.db) && pid in s.procs && s.procs[pid].Sweeping?
    ensures T.SweepOrders(s.db, s.procs[pid].due).Moved?
    ensures Alone(s, pid, n) == s.(db := T.SweepOrders(s.db, s.procs[pid].due).db, procs := s.procs - {pid})
    decreases |s.procs[pid].due|
  {
    var due := s.procs[pid].due;
    if due == [] {
      SweepStep(s, pid);
      n := 1;
    } else {
      var m := SweepTurnAlone(s, pid);
      T.SweepTurn(s.db, due, 0);
      var s1 := Alone(s, pid, m);
      if FlipExpired(s.db, due[0]).changed {
        T.SweepOneKeeps(s.db, due[0]);
      }
      n := SweepAlone(s1, pid);
      AlonePlus(s, pid, m, n);
      assert s1.procs - {pid} == s.procs - {pid};
      n := m + n;
    }
  }

  /** From any reachable state, a sweep that nothing interrupts is the service's sweep over the orders then due. */
  lemma UninterruptedSweepIsService(actions: seq<Action>, pid: nat, now: int, limit: nat) returns (n: nat)
    requires pid !in Exec(actions).procs
    ensures var s := Exec(actions); var swept := T.SweepOrders(s.db, DueOrders(s.db.holds, now, limit));
      swept.Moved? && Alone(Next(s, Sweep(pid, now, limit)), pid, n) == s.(db := swept.db)
  {
    var s := Exec(actions);
    EveryRunKeeps(actions);
    var start := s.(procs := s.procs[pid := Sweeping(DueOrders(s.db.holds, now, limit))]);
    assert Next(s, Sweep(pid, now, limit)) == start;
    n := SweepAlone(start, pid);
    assert start.procs - {pid} == s.procs;
  }

  // ----- Calls of one step --------------------------------------------------------------------------------

  predicate TicketMayMove(from: TicketStatus, to: TicketStatus) {
    || (from, to) in {
         (PendingIssue, Valid), (Valid, Blocked), (Valid, CheckedIn), (Blocked, Valid), (CheckedIn, Valid)}
    || (from in {Valid, Blocked} && to in {TicketCancelled, TicketRefunded})
  }

  /** The tables after an accepted edit; a refused one leaves them. */
  function AfterEdit(db: Db, r: Result<Db, StaffError>): Db {
    if r.Ok? then r.value else db
  }

  /** The calls that are one transaction each, and what they do to the tables. */
  function OneStep(db: Db, a: Action): Db {
    match a
    case NewEvent(event) => db.(events := db.events + [event])
    case MoveEvent(e, to) => AfterEdit(db, TransitionEvent(db, e, to))
    case EditCapacity(e, capacity, justified) => AfterEdit(db, ChangeEventCapacity(db, e, capacity, justified))
    case NewBatch(e, typeOf, total) => AfterEdit(db, CreateSalesBatch(db, e, typeOf, total))
    case EditQuantity(b, total, justified) => AfterEdit(db, UpdateBatchQuantity(db, b, total, justified))
    case MoveBatch(b, to) => AfterEdit(db, TransitionBatch(db, b, to))
    case Checkout(e, items, expiresAt) =>
      var r := CreatePendingOrder(db, e, items, expiresAt); if r.Some? then r.value else db
    case ChargePix(o) => if o < |db.orders| then db.(payments := db.payments + [Payment(o, PaymentCreated)]) else db
    case MoveTicket(t, to) =>
      if t < |db.tickets| && TicketMayMove(db.tickets[t].status, to)
      then db.(tickets := db.tickets[t := Ticket(db.tickets[t].orderId, db.tickets[t].item, to)]) else db
    case _ => db
  }

  lemma TicketMovesExactly(from: TicketStatus, to: TicketStatus)
    ensures to in TicketTransitions(from) <==> TicketMayMove(from, to)
  {
    match from {
      case PendingIssue =>
      case _ =>
    }
  }

  /** Checkouts, charges and staff calls are one transaction each; a crash only takes its process away. */
  lemma OneStepCalls(s: State, a: Action)
    requires !a.ChargeCard? && !a.Deliver? && !a.Reconcile? && !a.Sweep? && !a.Run? && !a.Fail?
    ensures Next(s, a) == State(OneStep(s.db, a), s.claims, if a.Crash? then s.procs - {a.pid} else s.procs, s.wins)
  {
    if a.MoveTicket? && a.t < |s.db.tickets| {
      TicketMovesExactly(s.db.tickets[a.t].status, a.ticketTo);
    }
  }

  /** A failure marks the process's event FAILED, but for a refund's, which goes on to acknowledge it; a sweep just ends. */
  lemma FailureMarks(s: State, pid: nat)
    requires pid in s.procs
    ensures var p := s.procs[pid];
      Next(s, Fail(pid)) ==
        if p.Sweeping? || p.Releasing? then State(s.db, s.claims, s.procs - {pid}, s.wins)
        else if p.RefundingOrder? || p.RefundingTickets? then At(s, pid, s.db, Finishing(p.ev), [])
        else Over(s, pid, p.ev, Failed, s.db, [])
  {
    assert s.wins + [] == s.wins;
  }
}
