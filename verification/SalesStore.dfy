/**
 * The store as the services use it: tables updated in place, loops over lines, holds and
 * items, transactions that roll back. Every method is tied to the transaction functions.
 */
module SalesStore {
  import opened Base
  import M = SalesModel
  import opened SalesInvariant
  import opened SalesTickets
  import opened SalesStaff
  import P = SalesProtocol

  /** The expiry sweep: flip each due order if still unpaid, and only then release its holds. */
  function SweepOrders(db: M.Db, due: seq<nat>): M.Settled
    decreases due
  {
    if due == [] then M.Moved(db, 0)
    else
      var flip := M.FlipExpired(db, due[0]);
      if !flip.changed then SweepOrders(db, due[1..])
      else
        match M.ReleaseForOrder(flip.db, due[0], M.Expired)
        case Inconsistent(b) => M.Inconsistent(b)
        case Moved(db', _) =>
          match SweepOrders(db', due[1..])
          case Inconsistent(b) => M.Inconsistent(b)
          case Moved(db'', n) => M.Moved(db'', n + 1)
  }

  predicate HasDueHold(holds: seq<M.Hold>, now: int, o: nat) {
    exists k :: 0 <= k < |holds| && holds[k].orderId == o && holds[k].status == M.Active && holds[k].expiresAt <= now
  }

  /** The sweep's work list: distinct orders with a due ACTIVE hold, all of them unless the limit cuts in. */
  lemma {:induction false} DueOrdersExact(holds: seq<M.Hold>, now: int, limit: nat)
    ensures var due := M.DueOrders(holds, now, limit);
      && |due| <= limit
      && (forall i, j :: 0 <= i < j < |due| ==> due[i] != due[j])
      && (forall o :: o in due ==> HasDueHold(holds, now, o))
      && (|due| < limit ==> forall o: nat :: HasDueHold(holds, now, o) ==> o in due)
  {
    if holds != [] {
      var n := |holds| - 1;
      DueOrdersExact(holds[..n], now, limit);
      forall o: nat | HasDueHold(holds[..n], now, o) ensures HasDueHold(holds, now, o) {
        var k :| 0 <= k < n && holds[..n][k].orderId == o && holds[k].status == M.Active && holds[k].expiresAt <= now;
        assert holds[k].orderId == o;
      }
      forall o: nat | HasDueHold(holds, now, o) && o != holds[n].orderId ensures HasDueHold(holds[..n], now, o) {
        var k :| 0 <= k < |holds| && holds[k].orderId == o && holds[k].status == M.Active && holds[k].expiresAt <= now;
        assert holds[..n][k].orderId == o;
      }
    }
  }

  /** Order `o` and its holds are exactly as they were. */
  ghost predicate Untouched(db: M.Db, db': M.Db, o: nat) {
    && o < |db.orders| && o < |db'.orders| && db'.orders[o] == db.orders[o]
    && |db'.holds| == |db.holds|
    && (forall k :: 0 <= k < |db.holds| ==> db'.holds[k].orderId == db.holds[k].orderId)
    && (forall k :: 0 <= k < |db.holds| && db.holds[k].orderId == o ==> db'.holds[k] == db.holds[k])
  }

  /** The order is expired and holds nothing any more. */
  ghost predicate ExpiredAndReleased(db: M.Db, o: nat) {
    && o < |db.orders| && db.orders[o].status == M.OrderExpired
    && (forall k :: 0 <= k < |db.holds| && db.holds[k].orderId == o ==> db.holds[k].status != M.Active)
  }

  lemma SweepOneKeeps(db: M.Db, d: nat)
    requires Inv(db) && M.FlipExpired(db, d).changed
    ensures var flip := M.FlipExpired(db, d).db;
      && M.ReleaseForOrder(flip, d, M.Expired).Moved?
      && var mid := M.ReleaseForOrder(flip, d, M.Expired).db;
      && Inv(mid) && mid.orders == flip.orders && HoldsSettled(db.holds, mid.holds, d, M.Expired)
  {
    TransitionOrderKeeps(db, d, M.Unpaid, M.OrderExpired);
    SettleOrder(M.FlipExpired(db, d).db, d, M.Expired);
  }

  /** One turn of the sweep, as the loop below takes it. */
  lemma SweepTurn(db: M.Db, due: seq<nat>, expired: nat)
    requires Inv(db) && due != []
    ensures var flip := M.FlipExpired(db, due[0]);
      flip.changed ==> M.ReleaseForOrder(flip.db, due[0], M.Expired).Moved?
    ensures var flip := M.FlipExpired(db, due[0]);
      AddCount(expired, SweepOrders(db, due))
      == if !flip.changed then AddCount(expired, SweepOrders(db, due[1..]))
         else AddCount(expired + 1, SweepOrders(M.ReleaseForOrder(flip.db, due[0], M.Expired).db, due[1..]))
  {
    if M.FlipExpired(db, due[0]).changed {
      SweepOneKeeps(db, due[0]);
    }
  }

  lemma {:induction false} SweepOrdersKeep(db: M.Db, due: seq<nat>)
    requires Inv(db)
    ensures SweepOrders(db, due).Moved? && Inv(SweepOrders(db, due).db)
    ensures |SweepOrders(db, due).db.orders| == |db.orders|
    decreases due
  {
    if due != [] {
      if M.FlipExpired(db, due[0]).changed {
        SweepOneKeeps(db, due[0]);
        SweepOrdersKeep(M.ReleaseForOrder(M.FlipExpired(db, due[0]).db, due[0], M.Expired).db, due[1..]);
      } else {
        SweepOrdersKeep(db, due[1..]);
      }
    }
  }

  lemma SweepOneEffect(db: M.Db, d: nat, o: nat)
    requires Inv(db) && M.FlipExpired(db, d).changed && o < |db.orders|
    ensures var mid := M.ReleaseForOrder(M.FlipExpired(db, d).db, d, M.Expired);
      mid.Moved? && if o == d then ExpiredAndReleased(mid.db, o) else Untouched(db, mid.db, o)
  {
    SweepOneKeeps(db, d);
  }

  lemma UntouchedAfter(a: M.Db, b: M.Db, c: M.Db, o: nat)
    requires Untouched(b, c, o)
    ensures Untouched(a, b, o) ==> Untouched(a, c, o)
    ensures ExpiredAndReleased(b, o) ==> ExpiredAndReleased(c, o)
  {
    forall k | 0 <= k < |c.holds| ensures c.holds[k].orderId == b.holds[k].orderId {
    }
  }

  /**
   * One sweep expires exactly the due orders that were still unpaid, returns all their
   * holds, and touches no other order or hold. It never throws.
   */
  lemma {:induction false} SweepOrdersEffect(db: M.Db, due: seq<nat>, o: nat)
    requires Inv(db) && o < |db.orders|
    ensures SweepOrders(db, due).Moved?
    ensures var db' := SweepOrders(db, due).db;
      if o in due && db.orders[o].status in M.Unpaid then ExpiredAndReleased(db', o) else Untouched(db, db', o)
    decreases due
  {
    SweepOrdersKeep(db, due);
    if due != [] {
      var d := due[0];
      if M.FlipExpired(db, d).changed {
        SweepOneKeeps(db, d);
        SweepOneEffect(db, d, o);
        var mid := M.ReleaseForOrder(M.FlipExpired(db, d).db, d, M.Expired).db;
        SweepOrdersEffect(mid, due[1..], o);
        if o == d || o !in due || db.orders[o].status !in M.Unpaid {
          UntouchedAfter(db, mid, SweepOrders(db, due).db, o);
        }
      } else {
        SweepOrdersEffect(db, due[1..], o);
      }
    }
  }

  /** An order the sweep would still expire. */
  function StillUnpaid(db: M.Db): nat -> int {
    (o: nat) => if o < |db.orders| && db.orders[o].status in {M.AwaitingPayment, M.Created} then 1 else 0
  }

  lemma {:induction false} SweepLeavesRest(before: M.Db, after: M.Db, d: nat, rest: seq<nat>)
    requires d !in rest && |after.orders| == |before.orders|
    requires forall o :: 0 <= o < |before.orders| && o != d ==> after.orders[o] == before.orders[o]
    ensures Sum(rest, StillUnpaid(after)) == Sum(rest, StillUnpaid(before))
  {
    SumEq(rest, StillUnpaid(after), StillUnpaid(before));
  }

  lemma SumHead(due: seq<nat>, weight: nat -> int)
    requires due != []
    ensures Sum(due, weight) == weight(due[0]) + Sum(due[1..], weight)
  {
    assert due == [due[0]] + due[1..];
    SumConcat([due[0]], due[1..], weight);
    SumPush([], due[0], weight);
  }

  lemma SweepTurnCounts(db: M.Db, due: seq<nat>)
    requires Inv(db) && due != [] && M.FlipExpired(db, due[0]).changed && due[0] !in due[1..]
    ensures var flip := M.FlipExpired(db, due[0]).db; var r := M.ReleaseForOrder(flip, due[0], M.Expired);
      && r.Moved? && Inv(r.db)
      && Sum(due, StillUnpaid(db)) == 1 + Sum(due[1..], StillUnpaid(r.db))
  {
    SumHead(due, StillUnpaid(db));
    SweepOneKeeps(db, due[0]);
    var flip := M.FlipExpired(db, due[0]).db;
    SweepLeavesRest(db, M.ReleaseForOrder(flip, due[0], M.Expired).db, due[0], due[1..]);
  }

  /** The sweep counts exactly the listed orders that were still unpaid. */
  lemma {:induction false} SweepOrdersCount(db: M.Db, due: seq<nat>)
    requires Inv(db) && forall i, j :: 0 <= i < j < |due| ==> due[i] != due[j]
    ensures SweepOrders(db, due).Moved? && SweepOrders(db, due).count == Sum(due, StillUnpaid(db))
    decreases due
  {
    if due != [] {
      if M.FlipExpired(db, due[0]).changed {
        SweepTurnCounts(db, due);
        SweepOrdersCount(M.ReleaseForOrder(M.FlipExpired(db, due[0]).db, due[0], M.Expired).db, due[1..]);
      } else {
        SumHead(due, StillUnpaid(db));
        SweepOrdersCount(db, due[1..]);
      }
    }
  }

  /** The payment and kind of an event: those stored under its id, or the delivered ones of a new id. */
  function Content(claims: map<nat, P.Claim>, ev: nat, pay: nat, kind: P.Kind): (nat, P.Kind) {
    if ev in claims then (claims[ev].pay, claims[ev].kind) else (pay, kind)
  }

  /** A ticket a refund of the order closes. */
  function Refundable(orderId: nat): M.Ticket -> int {
    (t: M.Ticket) => M.IfOf(t.orderId == orderId && t.status in {M.Valid, M.Blocked}, 1)
  }

  function RefundedRow(t: M.Ticket, orderId: nat): M.Ticket {
    if t.orderId == orderId && t.status in {M.Valid, M.Blocked} then M.Ticket(orderId, t.item, M.TicketRefunded) else t
  }

  lemma ClosedRows(db: M.Db, orderId: nat, rows: seq<M.Ticket>)
    requires |rows| == |db.tickets| && forall k :: 0 <= k < |rows| ==> rows[k] == RefundedRow(db.tickets[k], orderId)
    ensures db.(tickets := rows) == M.RefundTickets(db, orderId)
  {
    assert rows == M.RefundTickets(db, orderId).tickets;
  }

  /** The bulk update: the rows with the order's refundable tickets closed, and how many those are. */
  method CloseTickets(tickets: seq<M.Ticket>, orderId: nat) returns (rows: seq<M.Ticket>, count: nat)
    ensures |rows| == |tickets|
    ensures forall k :: 0 <= k < |rows| ==> rows[k] == RefundedRow(tickets[k], orderId)
    ensures count == Sum(tickets, Refundable(orderId))
  {
    rows, count := [], 0;
    for i := 0 to |tickets|
      invariant |rows| == i && forall k :: 0 <= k < i ==> rows[k] == RefundedRow(tickets[k], orderId)
      invariant count == Sum(tickets[..i], Refundable(orderId))
    {
      assert tickets[..i + 1] == tickets[..i] + [tickets[i]];
      SumPush(tickets[..i], tickets[i], Refundable(orderId));
      var t := tickets[i];
      if t.orderId == orderId && t.status in {M.Valid, M.Blocked} {
        t := t.(status := M.TicketRefunded);
        count := count + 1;
      }
      rows := rows + [t];
    }
    assert tickets[..|tickets|] == tickets;
  }

  /** From which statuses a provider event moves its payment, and to which. */
  function PaymentFrom(kind: P.Kind): set<M.PaymentStatus> {
    match kind
    case RefundedEvent => {M.Approved, M.PaymentPartiallyRefunded, M.Disputed}
    case ChargedBackEvent => {M.Approved, M.PaymentPartiallyRefunded, M.Disputed}
    case StillPending => {}
    case _ => {M.PaymentCreated, M.Processing}
  }

  function PaymentTo(kind: P.Kind): M.PaymentStatus {
    match kind
    case ApprovedEvent => M.Approved
    case RejectedEvent => M.Rejected
    case ExpiredEvent => M.PaymentExpired
    case RefundedEvent => M.PaymentRefunded
    case ChargedBackEvent => M.ChargedBack
    case StillPending => M.Processing
  }

  /** Only the payment `pay` may move, and only from one of the given statuses. */
  predicate PaymentMoved(
      before: seq<M.Payment>, after: seq<M.Payment>, pay: nat, from: set<M.PaymentStatus>, to: M.PaymentStatus)
    requires pay < |before|
  {
    after == if before[pay].status in from then before[pay := M.Payment(before[pay].orderId, to)] else before
  }

  /** The refund of an order: the guarded flip, then its open tickets closed. */
  function RefundedOrder(db: M.Db, orderId: nat, to: M.OrderStatus): M.Db {
    M.RefundTickets(M.FlipRefunded(db, orderId, to).db, orderId)
  }

  /** A PAID or partially refunded order ends in `to`, any other stays as it is; its open tickets are closed. */
  predicate OrderRefunded(db: M.Db, db': M.Db, o: nat, to: M.OrderStatus) {
    && o < |db.orders| && |db'.tickets| == |db.tickets|
    && db'.orders == (if db.orders[o].status in {M.Paid, M.PartiallyRefunded}
                      then db.orders[o := db.orders[o].(status := to)] else db.orders)
    && (forall k :: 0 <= k < |db.tickets| ==> db'.tickets[k] == RefundedRow(db.tickets[k], o))
    && db'.events == db.events && db'.batches == db.batches && db'.holds == db.holds
  }

  lemma RefundOrderExact(db: M.Db, orderId: nat, to: M.OrderStatus)
    requires orderId < |db.orders|
    ensures OrderRefunded(db, RefundedOrder(db, orderId, to), orderId, to)
  {
  }

  function RefundTo(kind: P.Kind): M.OrderStatus {
    if kind == P.ChargedBackEvent then M.Chargeback else M.Refunded
  }

  /**
   * What an event does per kind: the payment moves from the statuses it may leave; a refund or chargeback
   * also ends its order and closes the order's tickets; an approval of an order past payment, and any other
   * kind, touches nothing else.
   */
  predicate EventApplied(db: M.Db, db': M.Db, pay: nat, kind: P.Kind) {
    && pay < |db.payments|
    && PaymentMoved(db.payments, db'.payments, pay, PaymentFrom(kind), PaymentTo(kind))
    && (kind in {P.RefundedEvent, P.ChargedBackEvent} ==> OrderRefunded(db, db', db.payments[pay].orderId, RefundTo(kind)))
    && (kind in {P.RejectedEvent, P.ExpiredEvent, P.StillPending} || (kind == P.ApprovedEvent && !Payable(db, db.payments[pay].orderId)) ==>
          db' == db.(payments := db'.payments))
  }

  /** The order is unpaid or PAID, so that an approval may still pay or ticket it. */
  predicate Payable(db: M.Db, o: nat) {
    o < |db.orders| && db.orders[o].status in {M.AwaitingPayment, M.Paid}
  }

  lemma RefundIgnoresPayments(db: M.Db, orderId: nat, to: M.OrderStatus, payments: seq<M.Payment>)
    ensures RefundedOrder(db.(payments := payments), orderId, to) == RefundedOrder(db, orderId, to).(payments := payments)
  {
    assert RefundedOrder(db.(payments := payments), orderId, to).tickets == RefundedOrder(db, orderId, to).tickets;
  }

  /** What a half-done transaction comes to once the rest of it has run. */
  function AddCount(done: nat, rest: M.Settled): M.Settled {
    match rest
    case Moved(db, n) => M.Moved(db, done + n)
    case Inconsistent(b) => M.Inconsistent(b)
  }

  class Store {
    var events: seq<M.Event>
    var batches: seq<M.Batch>
    var holds: seq<M.Hold>
    var orders: seq<M.Order>
    var tickets: seq<M.Ticket>
    var payments: seq<M.Payment>
    var claims: map<nat, P.Claim>

    function Tables(): M.Db
      reads this
    {
      M.Db(events, batches, holds, orders, tickets, payments)
    }

    ghost predicate Valid()
      reads this
    {
      Inv(Tables())
    }

    constructor ()
      ensures Valid() && Tables() == M.EmptyDb && claims == map[]
    {
      events, batches, holds, orders, tickets, payments := [], [], [], [], [], [];
      claims := map[];
    }

    // ----- Checkout -----------------------------------------------------------------------

    /** The per-batch Map filled by the loop over the units, in first-seen order. */
    method GroupUnits(items: seq<M.Item>) returns (lines: seq<M.Line>)
      ensures lines == M.GroupUnits(items)
    {
      lines := [];
      for i := 0 to |items|
        invariant lines == M.GroupUnits(items[..i])
      {
        assert items[..i + 1][..i] == items[..i];
        if items[i].TicketItem? {
          lines := M.AddUnit(lines, items[i].batchId);
        }
      }
      assert items[..|items|] == items;
    }

    /** Runs inside the caller's transaction: on a refusal the caller rolls the tables back. */
    method ReserveOrderLines(orderId: nat, expiresAt: int, lines: seq<M.Line>) returns (ok: bool)
      modifies this`batches, this`holds
      ensures ok == M.ReserveLines(old(Tables()), orderId, expiresAt, lines).Some?
      ensures ok ==> Tables() == M.ReserveLines(old(Tables()), orderId, expiresAt, lines).value
    {
      var k := 0;
      while k < |lines|
        invariant k <= |lines|
        invariant M.ReserveLines(old(Tables()), orderId, expiresAt, lines)
          == M.ReserveLines(Tables(), orderId, expiresAt, lines[k..])
      {
        var line := lines[k];
        assert lines[k..][1..] == lines[k + 1..];
        if !M.Fits(batches, line.batchId, line.quantity) {
          return false;
        }
        var batch := batches[line.batchId];
        batches := batches[line.batchId := batch.(reserved := batch.reserved + line.quantity)];
        holds := holds + [M.Hold(line.batchId, orderId, M.Active, line.quantity, expiresAt)];
        k := k + 1;
      }
      return true;
    }

    /** Order, items and holds in one transaction: all of them or none. */
    method CreatePendingOrder(eventId: nat, items: seq<M.Item>, expiresAt: int) returns (orderId: Option<nat>)
      requires Valid()
      modifies this
      ensures Valid() && claims == old(claims)
      ensures orderId.Some? <==> M.CreatePendingOrder(old(Tables()), eventId, items, expiresAt).Some?
      ensures orderId.Some? ==>
        && orderId.value == |old(orders)|
        && Tables() == M.CreatePendingOrder(old(Tables()), eventId, items, expiresAt).value
      ensures orderId.None? ==> Tables() == old(Tables())
    {
      var lines := GroupUnits(items);
      var batches0, holds0, orders0 := batches, holds, orders;
      orders := orders + [M.Order(eventId, M.AwaitingPayment, items, expiresAt)];
      var ok := ReserveOrderLines(|orders0|, expiresAt, lines);
      if ok {
        CheckoutKeeps(old(Tables()), eventId, items, expiresAt);
        return Some(|orders0|);
      }
      batches, holds, orders := batches0, holds0, orders0;
      return None;
    }

    // ----- Settling holds --------------------------------------------------------------------

    /** Reads the order's ACTIVE rows, then settles them one by one; a throw rolls back. */
    method SettleForOrder(orderId: nat, to: M.HoldStatus) returns (r: Result<nat, nat>)
      modifies this`batches, this`holds
      ensures match M.ReleaseForOrder(old(Tables()), orderId, to)
        case Moved(db, n) => Tables() == db && r == Ok(n)
        case Inconsistent(b) => Tables() == old(Tables()) && r == Err(b)
    {
      var batches0, holds0 := batches, holds;
      var active := FindActive(orderId);
      M.ActiveIdsInRange(holds, orderId);
      r := SettleAll(active, to);
      if r.Err? {
        batches, holds := batches0, holds0;
      }
    }

    method FindActive(orderId: nat) returns (active: seq<nat>)
      ensures active == M.ActiveIds(holds, orderId)
    {
      active := [];
      for i := 0 to |holds|
        invariant active == M.ActiveIds(holds[..i], orderId)
      {
        assert holds[..i + 1][..i] == holds[..i];
        if holds[i].orderId == orderId && holds[i].status == M.Active {
          active := active + [i];
        }
      }
      assert holds[..|holds|] == holds;
    }

    method SettleAll(active: seq<nat>, to: M.HoldStatus) returns (r: Result<nat, nat>)
      requires forall k :: 0 <= k < |active| ==> active[k] < |holds|
      modifies this`batches, this`holds
      ensures match M.SettleHolds(old(Tables()), active, to)
        case Moved(db, n) => Tables() == db && r == Ok(n)
        case Inconsistent(b) => r == Err(b)
    {
      var settled := 0;
      var k := 0;
      while k < |active|
        invariant k <= |active| && |holds| == |old(holds)|
        invariant AddCount(settled, M.SettleHolds(Tables(), active[k..], to)) == M.SettleHolds(old(Tables()), active, to)
      {
        var id := active[k];
        var hold := holds[id];
        assert active[k..][0] == id && active[k..][1..] == active[k + 1..];
        k := k + 1;
        if hold.status == M.Active {
          holds := holds[id := hold.(status := to)];
          if hold.batchId >= |batches| || batches[hold.batchId].reserved < hold.quantity {
            return Err(hold.batchId);
          }
          batches := batches[hold.batchId := M.MoveUnits(batches[hold.batchId], hold.quantity, to)];
          settled := settled + 1;
        }
      }
      return Ok(settled);
    }

    method ConfirmForOrder(orderId: nat) returns (r: Result<nat, nat>)
      modifies this`batches, this`holds
      ensures match M.ConfirmForOrder(old(Tables()), orderId)
        case Moved(db, n) => Tables() == db && r == Ok(n)
        case Inconsistent(b) => Tables() == old(Tables()) && r == Err(b)
      ensures old(Valid()) && PaidOnce(orderId) ==>
        && Valid() && r == Ok(Sum(old(holds), ActiveOf(orderId))) && |batches| == |old(batches)|
        && HoldsSettled(old(holds), holds, orderId, M.Confirmed)
        && (forall b :: 0 <= b < |batches| ==> RowSold(old(batches)[b], batches[b], old(holds), orderId, b))
    {
      if Valid() && PaidOnce(orderId) {
        SettleOrder(Tables(), orderId, M.Confirmed);
        forall b | 0 <= b < |batches|
          ensures RowSold(batches[b], M.ConfirmForOrder(Tables(), orderId).db.batches[b], holds, orderId, b)
        {
          ConfirmMovesUnits(Tables(), orderId, b);
        }
      }
      r := SettleForOrder(orderId, M.Confirmed);
    }

    predicate PaidOnce(orderId: nat)
      reads this`orders
    {
      orderId < |orders| && ReachedPaid(orders[orderId].status)
    }

    method ListOrdersWithDueReservations(now: int, limit: nat) returns (due: seq<nat>)
      ensures due == M.DueOrders(holds, now, limit)
    {
      due := [];
      for i := 0 to |holds|
        invariant due == M.DueOrders(holds[..i], now, limit)
      {
        assert holds[..i + 1][..i] == holds[..i];
        var h := holds[i];
        if h.status == M.Active && h.expiresAt <= now && h.orderId !in due && |due| < limit {
          due := due + [h.orderId];
        }
      }
      assert holds[..|holds|] == holds;
    }

    // ----- Order lifecycle -----------------------------------------------------------------

    method TransitionOrder(orderId: nat, from: set<M.OrderStatus>, to: M.OrderStatus) returns (changed: bool)
      modifies this`orders
      ensures M.Guarded(Tables(), changed) == M.TransitionOrder(old(Tables()), orderId, from, to)
    {
      changed := orderId < |orders| && orders[orderId].status in from;
      if changed {
        orders := orders[orderId := orders[orderId].(status := to)];
      }
    }

    /** True only for the caller that paid the order; its holds are then all confirmed. */
    method MarkOrderPaid(orderId: nat) returns (won: bool)
      requires Valid()
      modifies this
      ensures Valid() && claims == old(claims)
      ensures won <==> orderId < |old(orders)| && old(orders)[orderId].status == M.AwaitingPayment
      ensures !won ==> Tables() == old(Tables())
      ensures won ==>
        && M.ConfirmForOrder(M.FlipPaid(old(Tables()), orderId).db, orderId).Moved?
        && Tables() == M.ConfirmForOrder(M.FlipPaid(old(Tables()), orderId).db, orderId).db
        && orders == old(orders)[orderId := old(orders)[orderId].(status := M.Paid)]
        && HoldsSettled(old(holds), holds, orderId, M.Confirmed) && |batches| == |old(batches)|
        && (forall b :: 0 <= b < |batches| ==> RowSold(old(batches)[b], batches[b], old(holds), orderId, b))
        && tickets == old(tickets) && payments == old(payments)
    {
      won := TransitionOrder(orderId, {M.AwaitingPayment}, M.Paid);
      if won {
        TransitionOrderKeeps(old(Tables()), orderId, {M.AwaitingPayment}, M.Paid);
        SettleOrder(Tables(), orderId, M.Confirmed);
        var confirmed := ConfirmForOrder(orderId);
      }
    }

    method SettleRefund(orderId: nat, chargeback: bool) returns (settled: bool)
      requires Valid()
      modifies this`orders
      ensures Valid()
      ensures var to := if chargeback then M.Chargeback else M.Refunded;
        && M.Guarded(Tables(), settled) == M.FlipRefunded(old(Tables()), orderId, to)
        && (settled <==> orderId < |old(orders)| && old(orders)[orderId].status in {M.Paid, M.PartiallyRefunded})
        && orders == if settled then old(orders)[orderId := old(orders)[orderId].(status := to)] else old(orders)
    {
      var to := if chargeback then M.Chargeback else M.Refunded;
      settled := TransitionOrder(orderId, M.Refundable, to);
      TransitionOrderKeeps(old(Tables()), orderId, M.Refundable, to);
    }

    /** Flips one order if it is still unpaid, and only then releases its holds. */
    method ExpireOrder(orderId: nat) returns (expired: bool)
      requires Valid()
      modifies this
      ensures Valid() && claims == old(claims)
      ensures var flip := M.FlipExpired(old(Tables()), orderId);
        && expired == flip.changed
        && (expired ==>
              var r := M.ReleaseForOrder(flip.db, orderId, M.Expired); r.Moved? && Tables() == r.db)
        && (!expired ==> Tables() == old(Tables()))
    {
      ghost var before := Tables();
      expired := TransitionOrder(orderId, M.Unpaid, M.OrderExpired);
      if expired {
        SweepOneKeeps(before, orderId);
        var released := SettleForOrder(orderId, M.Expired);
      }
    }

    /** The sweep: the due orders still unpaid expire and give their units back. */
    method ExpireDueOrders(now: int, limit: nat) returns (expired: nat)
      requires Valid()
      modifies this
      ensures Valid() && claims == old(claims)
      ensures SweepOrders(old(Tables()), M.DueOrders(old(holds), now, limit)) == M.Moved(Tables(), expired)
      ensures expired == Sum(M.DueOrders(old(holds), now, limit), StillUnpaid(old(Tables())))
    {
      DueOrdersExact(holds, now, limit);
      SweepOrdersCount(Tables(), M.DueOrders(holds, now, limit));
      var due := ListOrdersWithDueReservations(now, limit);
      expired := 0;
      for k := 0 to |due|
        invariant Valid() && claims == old(claims)
        invariant AddCount(expired, SweepOrders(Tables(), due[k..])) == SweepOrders(old(Tables()), due)
      {
        assert due[k..][0] == due[k] && due[k..][1..] == due[k + 1..];
        SweepTurn(Tables(), due[k..], expired);
        var transitioned := ExpireOrder(due[k]);
        if transitioned {
          expired := expired + 1;
        }
      }
    }

    // ----- Tickets ----------------------------------------------------------------------------

    /**
     * One ticket per ticket item of a PAID order; a repeated call issues nothing new. Returns
     * the items ticketed by this call, or None when the order is not payable for emission.
     */
    method IssueForOrder(orderId: nat) returns (issued: Option<seq<nat>>)
      requires Valid()
      modifies this`tickets
      ensures Valid()
      ensures issued.Some? <==> orderId < |orders| && orders[orderId].status == M.Paid
      ensures issued.None? ==> tickets == old(tickets)
      ensures issued.Some? ==>
        && M.IssueForOrder(old(Tables()), orderId) == Some(Tables())
        && |tickets| == |old(tickets)| + |issued.value|
        && (forall i :: 0 <= i < |orders[orderId].items| ==>
              Sum(tickets, AtItem(orderId, i)) == M.IfOf(orders[orderId].items[i].TicketItem?, 1))
    {
      if orderId >= |orders| || orders[orderId].status != M.Paid {
        return None;
      }
      var items := orders[orderId].items;
      var known := M.KnownItems(tickets, orderId);
      var out: seq<nat> := [];
      var next := 0;
      while next < |items|
        invariant next <= |items|
        invariant M.IssueFrom(Tables(), orderId, known, next) == M.IssueFrom(old(Tables()), orderId, known, 0)
        invariant |tickets| == |old(tickets)| + |out|
      {
        if next !in known && items[next].TicketItem? {
          var taken := HasRow(orderId, next);
          if !taken {
            tickets := tickets + [M.Ticket(orderId, next, M.Valid)];
            out := out + [next];
          }
        }
        next := next + 1;
      }
      IssueForOrderCompletes(old(Tables()), orderId);
      return Some(out);
    }

    /** The unique-key lookup behind the insert. */
    method HasRow(orderId: nat, item: nat) returns (taken: bool)
      ensures taken == M.HasTicket(tickets, orderId, item)
    {
      for k := 0 to |tickets|
        invariant forall j :: 0 <= j < k ==> tickets[j].orderId != orderId || tickets[j].item != item
      {
        if tickets[k].orderId == orderId && tickets[k].item == item {
          return true;
        }
      }
      return false;
    }

    /** Closes exactly the order's VALID and BLOCKED tickets and counts them; every other row stays as it was. */
    method RefundTicketsForOrder(orderId: nat) returns (count: nat)
      requires Valid()
      modifies this`tickets
      ensures Valid() && |tickets| == |old(tickets)|
      ensures forall k :: 0 <= k < |tickets| ==>
        tickets[k] ==
          if old(tickets)[k].orderId == orderId && old(tickets)[k].status in {M.Valid, M.Blocked}
          then M.Ticket(orderId, old(tickets)[k].item, M.TicketRefunded) else old(tickets)[k]
      ensures count == Sum(old(tickets), Refundable(orderId))
      ensures Tables() == M.RefundTickets(old(Tables()), orderId)
    {
      RefundTicketsKeeps(Tables(), orderId);
      var rows: seq<M.Ticket>;
      rows, count := CloseTickets(tickets, orderId);
      ClosedRows(Tables(), orderId, rows);
      tickets := rows;
    }

    // ----- Payments ------------------------------------------------------------------------------

    method TransitionPayment(pay: nat, from: set<M.PaymentStatus>, to: M.PaymentStatus) returns (changed: bool)
      requires Valid()
      modifies this`payments
      ensures Valid() && M.Guarded(Tables(), changed) == M.TransitionPayment(old(Tables()), pay, from, to)
      ensures pay < |old(payments)| ==> PaymentMoved(old(payments), payments, pay, from, to)
    {
      TransitionPaymentKeeps(Tables(), pay, from, to);
      changed := pay < |payments| && payments[pay].status in from;
      if changed {
        payments := payments[pay := payments[pay].(status := to)];
      }
    }

    /** Every item of the order carries exactly the tickets it should: one, or none for a product. */
    ghost predicate Fulfilled(orderId: nat)
      reads this
    {
      && orderId < |orders| && orders[orderId].status == M.Paid
      && (forall i :: 0 <= i < |orders[orderId].items| ==>
            Sum(tickets, AtItem(orderId, i)) == M.IfOf(orders[orderId].items[i].TicketItem?, 1))
    }

    /**
     * An approval run to its end: from AWAITING_PAYMENT or PAID the order ends PAID with
     * exactly one ticket per ticket item; in any other status neither order nor tickets change.
     */
    method ApplyApproval(pay: nat, card: bool) returns (ok: bool)
      requires Valid()
      modifies this
      ensures Valid() && claims == old(claims)
      ensures ok <==> pay < |old(payments)|
      ensures !ok ==> Tables() == old(Tables())
      ensures ok ==> PaymentMoved(old(payments), payments, pay, P.Pending(card), M.Approved)
      ensures ok ==>
        var o := old(payments)[pay].orderId;
        if old(orders)[o].status in {M.AwaitingPayment, M.Paid}
        then Fulfilled(o) && orders == old(orders)[o := old(orders)[o].(status := M.Paid)]
        else Tables() == old(Tables()).(payments := payments)
    {
      if pay >= |payments| {
        return false;
      }
      var o := payments[pay].orderId;
      var moved := TransitionPayment(pay, P.Pending(card), M.Approved);
      var won := MarkOrderPaid(o);
      if orders[o].status == M.Paid {
        var issued := IssueForOrder(o);
      }
      return true;
    }

    /** The guarded flip of the order and the closing of its tickets. */
    method RefundOrder(orderId: nat, chargeback: bool)
      requires Valid()
      modifies this`orders, this`tickets
      ensures Valid()
      ensures Tables() == RefundedOrder(old(Tables()), orderId, if chargeback then M.Chargeback else M.Refunded)
    {
      var settled := SettleRefund(orderId, chargeback);
      var closed := RefundTicketsForOrder(orderId);
    }

    /** A refund or chargeback run to its end: payment, order and tickets, in that order. */
    method ApplyRefund(pay: nat, chargeback: bool)
      requires Valid() && pay < |payments|
      modifies this
      ensures Valid() && claims == old(claims)
      ensures PaymentMoved(old(payments), payments, pay, P.RefundablePayment, if chargeback then M.ChargedBack else M.PaymentRefunded)
      ensures var o := old(payments)[pay].orderId;
        var to := if chargeback then M.Chargeback else M.Refunded;
        && Tables() == RefundedOrder(old(Tables()), o, to).(payments := payments)
        && OrderRefunded(old(Tables()), Tables(), o, to)
    {
      var o := payments[pay].orderId;
      var to := if chargeback then M.Chargeback else M.Refunded;
      ghost var before := Tables();
      var moved := TransitionPayment(pay, P.RefundablePayment, if chargeback then M.ChargedBack else M.PaymentRefunded);
      RefundIgnoresPayments(before, o, to, payments);
      RefundOrderExact(before, o, to);
      RefundOrder(o, chargeback);
    }

    method ApplyEvent(pay: nat, kind: P.Kind) returns (ok: bool)
      requires Valid()
      modifies this
      ensures Valid() && claims == old(claims)
      ensures ok <==> pay < |old(payments)|
      ensures !ok ==> Tables() == old(Tables())
      ensures ok ==> EventApplied(old(Tables()), Tables(), pay, kind)
      ensures ok && kind == P.ApprovedEvent ==>
        var o := old(payments)[pay].orderId;
        old(orders)[o].status in {M.AwaitingPayment, M.Paid} ==> Fulfilled(o)
      ensures ok && kind in {P.RefundedEvent, P.ChargedBackEvent} ==>
        Tables() == RefundedOrder(old(Tables()), old(payments)[pay].orderId, RefundTo(kind)).(payments := payments)
    {
      ok := pay < |payments|;
      if !ok {
        return;
      }
      match kind {
        case ApprovedEvent =>
          ok := ApplyApproval(pay, false);
        case RejectedEvent =>
          var moved := TransitionPayment(pay, P.Pending(false), M.Rejected);
        case ExpiredEvent =>
          var moved := TransitionPayment(pay, P.Pending(false), M.PaymentExpired);
        case StillPending =>
        case RefundedEvent => ApplyRefund(pay, false);
        case ChargedBackEvent => ApplyRefund(pay, true);
      }
    }

    /**
     * Webhook entry: a delivery is refused as a duplicate exactly when the event was already
     * PROCESSED. A new event is stored with its content; a reclaimed one is applied with the content
     * stored under its id, as a redelivery carries the same event. A paid approval it acknowledges is
     * fulfilled; an unknown payment leaves the event FAILED, to be retried.
     */
    method ProcessWebhook(ev: nat, pay: nat, kind: P.Kind) returns (processed: Option<bool>)
      requires Valid()
      modifies this
      ensures Valid()
      ensures processed.None? <==> ev in old(claims) && old(claims)[ev].status == P.Processed
      ensures processed.None? ==> Tables() == old(Tables()) && claims == old(claims)
      ensures processed.Some? ==>
        var (p, k) := Content(old(claims), ev, pay, kind);
        && claims == old(claims)[ev := P.Claim(p, k, if processed.value then P.Processed else P.Failed)]
        && (processed.value <==> p < |old(payments)|)
        && (!processed.value ==> Tables() == old(Tables()))
        && (processed.value ==> EventApplied(old(Tables()), Tables(), p, k))
        && (processed.value && k == P.ApprovedEvent ==>
              var o := old(payments)[p].orderId;
              old(orders)[o].status in {M.AwaitingPayment, M.Paid} ==> Fulfilled(o))
    {
      if ev !in claims {
        claims := claims[ev := P.Claim(pay, kind, P.Received)];
      } else if claims[ev].status !in {P.Failed, P.Received} {
        return None;
      }
      var claimed := claims[ev];
      var ok := ApplyEvent(claimed.pay, claimed.kind);
      claims := claims[ev := claimed.(status := if ok then P.Processed else P.Failed)];
      return Some(ok);
    }

    // ----- Staff edits -----------------------------------------------------------------------------

    method CreateSalesBatch(eventId: nat, typeOf: Option<nat>, total: nat) returns (r: Result<nat, M.StaffError>)
      requires Valid()
      modifies this`batches
      ensures Valid()
      ensures match M.CreateSalesBatch(old(Tables()), eventId, typeOf, total)
        case Ok(db) => Tables() == db && r == Ok(|old(batches)|)
        case Err(e) => Tables() == old(Tables()) && r == Err(e)
    {
      CreateSalesBatchExact(Tables(), eventId, typeOf, total);
      if eventId >= |events| {
        return Err(M.NotFound);
      }
      var event := events[eventId];
      if M.Terminal(event.status) {
        return Err(M.NotEditable);
      }
      if typeOf != Some(eventId) {
        return Err(M.NotFound);
      }
      if event.capacity.Some? && M.EventTotal(Tables(), eventId) + total > event.capacity.value {
        return Err(M.OverCapacity);
      }
      batches := batches + [M.Batch(eventId, M.Scheduled, total, 0, 0)];
      return Ok(|batches| - 1);
    }

    method UpdateBatchQuantity(b: nat, total: nat, justified: bool) returns (r: Result<(), M.StaffError>)
      requires Valid()
      modifies this`batches
      ensures Valid()
      ensures match M.UpdateBatchQuantity(old(Tables()), b, total, justified)
        case Ok(db) => Tables() == db && r.Ok?
        case Err(e) => Tables() == old(Tables()) && r == Err(e)
    {
      if M.UpdateBatchQuantity(Tables(), b, total, justified).Ok? {
        UpdateBatchQuantityKeeps(Tables(), b, total, justified);
      }
      if b >= |batches| || batches[b].eventId >= |events| {
        return Err(M.NotFound);
      }
      var batch := batches[b];
      var event := events[batch.eventId];
      if M.Terminal(event.status) {
        return Err(M.NotEditable);
      }
      var committed := M.Committed(batch);
      var salesStarted := batch.status != M.Scheduled || committed > 0;
      if salesStarted && !justified {
        return Err(M.JustificationRequired);
      }
      if total < committed {
        return Err(M.BelowCommitted);
      }
      if event.capacity.Some? {
        var others := M.EventTotal(Tables(), batch.eventId) - batch.total;
        if others + total > event.capacity.value {
          return Err(M.OverCapacity);
        }
      }
      batches := batches[b := batch.(total := total)];
      return Ok(());
    }

    method ChangeEventCapacity(e: nat, capacity: int, justified: bool) returns (r: Result<(), M.StaffError>)
      requires Valid()
      modifies this`events
      ensures Valid()
      ensures match M.ChangeEventCapacity(old(Tables()), e, capacity, justified)
        case Ok(db) => Tables() == db && r.Ok?
        case Err(err) => Tables() == old(Tables()) && r == Err(err)
    {
      if M.ChangeEventCapacity(Tables(), e, capacity, justified).Ok? {
        ChangeEventCapacityKeeps(Tables(), e, capacity, justified);
      }
      if capacity <= 0 {
        return Err(M.BadCapacity);
      }
      if !justified {
        return Err(M.JustificationRequired);
      }
      if e >= |events| {
        return Err(M.NotFound);
      }
      if M.Terminal(events[e].status) {
        return Err(M.NotEditable);
      }
      var committed := Sum(batches, M.CommittedIn(e));
      if capacity < committed {
        return Err(M.BelowCommitted);
      }
      var batchTotal := M.EventTotal(Tables(), e);
      if capacity < batchTotal {
        return Err(M.OverCapacity);
      }
      events := events[e := events[e].(capacity := Some(capacity))];
      return Ok(());
    }
  }
}
