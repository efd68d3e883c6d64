/**
 * The tables of the ticket shop and its transactions. Rows are kept in insertion order
 * and a row's id is its position. Each function below is one database transaction or one
 * guarded statement: nothing else ever runs between its steps.
 */
module SalesModel {
  import opened Base

  datatype EventStatus =
    | Draft | Published | SalesPaused | SalesClosed | Postponed | EventCancelled | Completed | Archived

  datatype Event = Event(status: EventStatus, capacity: Option<nat>)

  datatype BatchStatus = Scheduled | Open | Closed | SoldOut

  datatype Batch = Batch(eventId: nat, status: BatchStatus, total: nat, sold: nat, reserved: nat)

  datatype HoldStatus = Active | Confirmed | Released | Expired

  /** One inventory reservation: `quantity` units of one batch held for one order. */
  datatype Hold = Hold(batchId: nat, orderId: nat, status: HoldStatus, quantity: nat, expiresAt: int)

  datatype OrderStatus =
    | Created | AwaitingPayment | Paid | PartiallyRefunded | Refunded | OrderExpired | Cancelled | Chargeback

  /** One purchased unit. Only a ticket unit holds inventory and becomes a ticket. */
  datatype Item =
    | TicketItem(batchId: nat, ticketTypeId: nat, unitPriceCents: nat)
    | ProductItem(productId: nat, unitPriceCents: nat)

  datatype Order = Order(eventId: nat, status: OrderStatus, items: seq<Item>, expiresAt: int)

  datatype TicketStatus = PendingIssue | Valid | CheckedIn | Blocked | TicketCancelled | TicketRefunded

  /** A ticket row; `item` is the position of its order item in the order. */
  datatype Ticket = Ticket(orderId: nat, item: nat, status: TicketStatus)

  datatype PaymentStatus =
    | PaymentCreated | Processing | Approved | Rejected | PaymentExpired | PaymentCancelled
    | PaymentPartiallyRefunded | PaymentRefunded | Disputed | ChargedBack

  datatype Payment = Payment(orderId: nat, status: PaymentStatus)

  datatype Db = Db(
    events: seq<Event>,
    batches: seq<Batch>,
    holds: seq<Hold>,
    orders: seq<Order>,
    tickets: seq<Ticket>,
    payments: seq<Payment>)

  const EmptyDb := Db([], [], [], [], [], [])

  // ----- Weights of the sums ---------------------------------------------------

  function IfOf(b: bool, n: int): int {
    if b then n else 0
  }

  /** Units of batch `b` held by rows in the given status. */
  function HeldIn(b: nat, status: HoldStatus): Hold -> int {
    (h: Hold) => IfOf(h.batchId == b && h.status == status, h.quantity)
  }

  function UnitOf(b: nat): Item -> int {
    (i: Item) => IfOf(i.TicketItem? && i.batchId == b, 1)
  }

  function TotalIn(e: nat): Batch -> int {
    (b: Batch) => IfOf(b.eventId == e, b.total)
  }

  function CommittedIn(e: nat): Batch -> int {
    (b: Batch) => IfOf(b.eventId == e, b.sold + b.reserved)
  }

  function LineOf(b: nat): Line -> int {
    (l: Line) => IfOf(l.batchId == b, l.quantity)
  }

  function IsBatchTicket(orders: seq<Order>, b: nat): Ticket -> int {
    (t: Ticket) => IfOf(IsTicketOf(orders, t, b), 1)
  }

  predicate IsTicketOf(orders: seq<Order>, t: Ticket, b: nat) {
    && t.orderId < |orders|
    && t.item < |orders[t.orderId].items|
    && orders[t.orderId].items[t.item].TicketItem?
    && orders[t.orderId].items[t.item].batchId == b
  }

  /** How many units of batch `b` an order holds. */
  function Units(items: seq<Item>, b: nat): int {
    Sum(items, UnitOf(b))
  }

  /** Tickets ever issued for batch `b`: a ticket row is never deleted. */
  function IssuedFor(db: Db, b: nat): int {
    Sum(db.tickets, IsBatchTicket(db.orders, b))
  }

  // ----- Checkout: order, items and holds in one transaction -------------------

  datatype Line = Line(batchId: nat, quantity: nat)

  /** Adds one unit of batch `b` to the per-batch lines, keeping first-seen order. */
  function AddUnit(lines: seq<Line>, b: nat): seq<Line> {
    if lines == [] then [Line(b, 1)]
    else if lines[0].batchId == b then [Line(b, lines[0].quantity + 1)] + lines[1..]
    else [lines[0]] + AddUnit(lines[1..], b)
  }

  function GroupUnits(items: seq<Item>): seq<Line> {
    if items == [] then []
    else
      var rest, last := GroupUnits(items[..|items| - 1]), items[|items| - 1];
      if last.TicketItem? then AddUnit(rest, last.batchId) else rest
  }

  predicate Fits(batches: seq<Batch>, b: nat, quantity: nat) {
    && b < |batches|
    && batches[b].status == Open
    && batches[b].sold + batches[b].reserved + quantity <= batches[b].total
  }

  /** The conditional UPDATE and the INSERT of one line; None when no row was updated. */
  function ReserveLine(db: Db, orderId: nat, expiresAt: int, line: Line): Option<Db> {
    if !Fits(db.batches, line.batchId, line.quantity) then None
    else
      var batch := db.batches[line.batchId];
      Some(db.(
        batches := db.batches[line.batchId := batch.(reserved := batch.reserved + line.quantity)],
        holds := db.holds + [Hold(line.batchId, orderId, Active, line.quantity, expiresAt)]))
  }

  function ReserveLines(db: Db, orderId: nat, expiresAt: int, lines: seq<Line>): Option<Db>
    decreases lines
  {
    if lines == [] then Some(db)
    else
      match ReserveLine(db, orderId, expiresAt, lines[0])
      case None => None
      case Some(db') => ReserveLines(db', orderId, expiresAt, lines[1..])
  }

  function CreatePendingOrder(db: Db, eventId: nat, items: seq<Item>, expiresAt: int): Option<Db> {
    var orderId := |db.orders|;
    var withOrder := db.(orders := db.orders + [Order(eventId, AwaitingPayment, items, expiresAt)]);
    ReserveLines(withOrder, orderId, expiresAt, GroupUnits(items))
  }

  // ----- Confirming and releasing the holds of an order -------------------------

  /** What a transaction over an order's holds did: rows moved, or the aborting throw. */
  datatype Settled = Moved(db: Db, count: nat) | Inconsistent(batchId: nat)

  function ActiveIds(holds: seq<Hold>, orderId: nat): seq<nat> {
    if holds == [] then []
    else
      var n := |holds| - 1;
      var rest := ActiveIds(holds[..n], orderId);
      if holds[n].orderId == orderId && holds[n].status == Active then rest + [n] else rest
  }

  /** Units leave `reserved`; a confirmation moves them to `sold` and may sell the batch out. */
  function MoveUnits(batch: Batch, quantity: nat, to: HoldStatus): Batch
    requires quantity <= batch.reserved
  {
    var out := batch.(reserved := batch.reserved - quantity);
    if to != Confirmed then out
    else
      var sold := out.(sold := out.sold + quantity);
      if sold.status == Open && sold.sold >= sold.total then sold.(status := SoldOut) else sold
  }

  function SettleHold(db: Db, id: nat, to: HoldStatus): Settled
    requires id < |db.holds|
  {
    var hold := db.holds[id];
    if hold.status != Active then Moved(db, 0)
    else if hold.batchId >= |db.batches| || db.batches[hold.batchId].reserved < hold.quantity then
      Inconsistent(hold.batchId)
    else
      Moved(db.(
        holds := db.holds[id := hold.(status := to)],
        batches := db.batches[hold.batchId := MoveUnits(db.batches[hold.batchId], hold.quantity, to)]), 1)
  }

  function SettleHolds(db: Db, ids: seq<nat>, to: HoldStatus): (r: Settled)
    requires forall k :: 0 <= k < |ids| ==> ids[k] < |db.holds|
    ensures r.Moved? ==> |r.db.holds| == |db.holds|
    decreases ids
  {
    if ids == [] then Moved(db, 0)
    else
      match SettleHold(db, ids[0], to)
      case Inconsistent(b) => Inconsistent(b)
      case Moved(db', n) =>
        match SettleHolds(db', ids[1..], to)
        case Inconsistent(b) => Inconsistent(b)
        case Moved(db'', m) => Moved(db'', n + m)
  }

  lemma ActiveIdsInRange(holds: seq<Hold>, orderId: nat)
    ensures forall k :: 0 <= k < |ActiveIds(holds, orderId)| ==> ActiveIds(holds, orderId)[k] < |holds|
  {
  }

  function ConfirmForOrder(db: Db, orderId: nat): Settled {
    ActiveIdsInRange(db.holds, orderId);
    SettleHolds(db, ActiveIds(db.holds, orderId), Confirmed)
  }

  function ReleaseForOrder(db: Db, orderId: nat, to: HoldStatus): Settled {
    ActiveIdsInRange(db.holds, orderId);
    SettleHolds(db, ActiveIds(db.holds, orderId), to)
  }

  /** Orders with an ACTIVE hold past its expiry, each once, at most `limit` of them. */
  function DueOrders(holds: seq<Hold>, now: int, limit: nat): seq<nat> {
    if holds == [] then []
    else
      var n := |holds| - 1;
      var rest := DueOrders(holds[..n], now, limit);
      if holds[n].status == Active && holds[n].expiresAt <= now && holds[n].orderId !in rest && |rest| < limit
      then rest + [holds[n].orderId] else rest
  }

  // ----- Guarded status updates -------------------------------------------------

  datatype Guarded = Guarded(db: Db, changed: bool)

  function TransitionOrder(db: Db, orderId: nat, from: set<OrderStatus>, to: OrderStatus): Guarded {
    if orderId < |db.orders| && db.orders[orderId].status in from then
      Guarded(db.(orders := db.orders[orderId := db.orders[orderId].(status := to)]), true)
    else Guarded(db, false)
  }

  function TransitionPayment(db: Db, paymentId: nat, from: set<PaymentStatus>, to: PaymentStatus): Guarded {
    if paymentId < |db.payments| && db.payments[paymentId].status in from then
      Guarded(db.(payments := db.payments[paymentId := db.payments[paymentId].(status := to)]), true)
    else Guarded(db, false)
  }

  function TransitionTicket(db: Db, ticketId: nat, from: set<TicketStatus>, to: TicketStatus): Guarded {
    if ticketId < |db.tickets| && db.tickets[ticketId].status in from then
      Guarded(db.(tickets := db.tickets[ticketId := db.tickets[ticketId].(status := to)]), true)
    else Guarded(db, false)
  }

  const Unpaid: set<OrderStatus> := {AwaitingPayment, Created}
  const Refundable: set<OrderStatus> := {Paid, PartiallyRefunded}

  function FlipPaid(db: Db, orderId: nat): Guarded {
    TransitionOrder(db, orderId, {AwaitingPayment}, Paid)
  }

  function FlipExpired(db: Db, orderId: nat): Guarded {
    TransitionOrder(db, orderId, Unpaid, OrderExpired)
  }

  function FlipRefunded(db: Db, orderId: nat, kind: OrderStatus): Guarded {
    TransitionOrder(db, orderId, Refundable, kind)
  }

  /** The bulk update that closes every VALID or BLOCKED ticket of a refunded order. */
  function RefundTickets(db: Db, orderId: nat): Db {
    db.(tickets := seq(|db.tickets|, (i: int) requires 0 <= i < |db.tickets| =>
      var t := db.tickets[i];
      if t.orderId == orderId && t.status in {Valid, Blocked} then t.(status := TicketRefunded) else t))
  }

  // ----- Ticket emission ---------------------------------------------------------

  predicate HasTicket(tickets: seq<Ticket>, orderId: nat, item: nat) {
    exists k :: 0 <= k < |tickets| && tickets[k].orderId == orderId && tickets[k].item == item
  }

  /** INSERT under the unique key on the order item: a second insert changes nothing. */
  function InsertTicket(db: Db, orderId: nat, item: nat): Db {
    if HasTicket(db.tickets, orderId, item) then db
    else db.(tickets := db.tickets + [Ticket(orderId, item, Valid)])
  }

  /** The loop of an issuer that saw tickets for the items in `known` when it started. */
  function IssueFrom(db: Db, orderId: nat, known: set<nat>, next: nat): Db
    requires orderId < |db.orders|
    decreases |db.orders[orderId].items| - next
  {
    if next >= |db.orders[orderId].items| then db
    else if next in known || !db.orders[orderId].items[next].TicketItem? then IssueFrom(db, orderId, known, next + 1)
    else IssueFrom(InsertTicket(db, orderId, next), orderId, known, next + 1)
  }

  function KnownItems(tickets: seq<Ticket>, orderId: nat): set<nat> {
    set k | 0 <= k < |tickets| && tickets[k].orderId == orderId :: tickets[k].item
  }

  /** None when the order is missing or not PAID: tickets only for paid orders. */
  function IssueForOrder(db: Db, orderId: nat): Option<Db> {
    if orderId < |db.orders| && db.orders[orderId].status == Paid then
      Some(IssueFrom(db, orderId, KnownItems(db.tickets, orderId), 0))
    else None
  }

  // ----- Staff edits: each check-then-write call is one step -----------------------

  datatype StaffError = NotFound | NotEditable | JustificationRequired | BelowCommitted | OverCapacity | BadTransition | NoRoom | BadCapacity

  predicate Terminal(s: EventStatus) {
    s in {EventCancelled, Completed, Archived}
  }

  function EventTransitions(s: EventStatus): set<EventStatus> {
    match s
    case Draft => {Published, EventCancelled, Archived}
    case Published => {SalesPaused, SalesClosed, Postponed, EventCancelled}
    case SalesPaused => {Published, SalesClosed, Postponed, EventCancelled}
    case SalesClosed => {Completed, Postponed, EventCancelled}
    case Postponed => {Published, EventCancelled}
    case Completed => {Archived}
    case EventCancelled => {}
    case Archived => {}
  }

  function BatchTransitions(s: BatchStatus): set<BatchStatus> {
    match s
    case Scheduled => {Open, Closed}
    case Open => {Closed, SoldOut}
    case Closed => {Open}
    case SoldOut => {Open}
  }

  function Committed(batch: Batch): nat {
    batch.sold + batch.reserved
  }

  function EventTotal(db: Db, e: nat): int {
    Sum(db.batches, TotalIn(e))
  }

  /** `typeOf` is the event of the requested ticket type, None when there is no such type. */
  function CreateSalesBatch(db: Db, e: nat, typeOf: Option<nat>, total: nat): Result<Db, StaffError> {
    if e >= |db.events| then Err(NotFound)
    else if Terminal(db.events[e].status) then Err(NotEditable)
    else if typeOf != Some(e) then Err(NotFound)
    else if db.events[e].capacity.Some? && EventTotal(db, e) + total > db.events[e].capacity.value then Err(OverCapacity)
    else Ok(db.(batches := db.batches + [Batch(e, Scheduled, total, 0, 0)]))
  }

  /** `justified`: a justification of at least five characters came with the request. */
  function UpdateBatchQuantity(db: Db, b: nat, total: nat, justified: bool): Result<Db, StaffError> {
    if b >= |db.batches| || db.batches[b].eventId >= |db.events| then Err(NotFound)
    else
      var batch := db.batches[b];
      var event := db.events[batch.eventId];
      if Terminal(event.status) then Err(NotEditable)
      else if (batch.status != Scheduled || Committed(batch) > 0) && !justified then Err(JustificationRequired)
      else if total < Committed(batch) then Err(BelowCommitted)
      else if event.capacity.Some? && EventTotal(db, batch.eventId) - batch.total + total > event.capacity.value then
        Err(OverCapacity)
      else Ok(db.(batches := db.batches[b := batch.(total := total)]))
  }

  function TransitionBatch(db: Db, b: nat, to: BatchStatus): Result<Db, StaffError> {
    if b >= |db.batches| || db.batches[b].eventId >= |db.events| then Err(NotFound)
    else
      var batch := db.batches[b];
      if Terminal(db.events[batch.eventId].status) then Err(NotEditable)
      else if to !in BatchTransitions(batch.status) then Err(BadTransition)
      else if to == Open && Committed(batch) >= batch.total then Err(NoRoom)
      else Ok(db.(batches := db.batches[b := batch.(status := to)]))
  }

  function ChangeEventCapacity(db: Db, e: nat, capacity: int, justified: bool): Result<Db, StaffError> {
    if capacity <= 0 then Err(BadCapacity)
    else if !justified then Err(JustificationRequired)
    else if e >= |db.events| then Err(NotFound)
    else if Terminal(db.events[e].status) then Err(NotEditable)
    else if capacity < Sum(db.batches, CommittedIn(e)) then Err(BelowCommitted)
    else if capacity < EventTotal(db, e) then Err(OverCapacity)
    else Ok(db.(events := db.events[e := db.events[e].(capacity := Some(capacity))]))
  }

  function TransitionEvent(db: Db, e: nat, to: EventStatus): Result<Db, StaffError> {
    if e >= |db.events| then Err(NotFound)
    else if to !in EventTransitions(db.events[e].status) then Err(BadTransition)
    else Ok(db.(events := db.events[e := db.events[e].(status := to)]))
  }

  function TicketTransitions(s: TicketStatus): set<TicketStatus> {
    match s
    case PendingIssue => {Valid}
    case Valid => {Blocked, CheckedIn, TicketCancelled, TicketRefunded}
    case Blocked => {Valid, TicketCancelled, TicketRefunded}
    case CheckedIn => {Valid}
    case TicketCancelled => {}
    case TicketRefunded => {}
  }
}
