/** What every transaction of the shop keeps, and how tickets are bounded by holds. */
module SalesInvariant {
  import opened Base
  import opened SalesModel

  /** The order was PAID at some point: PAID is left only towards a refund. */
  predicate ReachedPaid(s: OrderStatus) {
    s in {Paid, PartiallyRefunded, Refunded, Chargeback}
  }

  /** Each counter is exactly the sum of the holds behind it, and they fit the batch. */
  ghost predicate CountersMatch(db: Db) {
    forall b :: 0 <= b < |db.batches| ==>
      && db.batches[b].reserved == Sum(db.holds, HeldIn(b, Active))
      && db.batches[b].sold == Sum(db.holds, HeldIn(b, Confirmed))
      && Committed(db.batches[b]) <= db.batches[b].total
  }

  predicate HoldAgrees(db: Db, h: Hold) {
    && h.batchId < |db.batches|
    && h.orderId < |db.orders|
    && h.quantity == Units(db.orders[h.orderId].items, h.batchId)
    && (h.status == Confirmed ==> ReachedPaid(db.orders[h.orderId].status))
    && (h.status == Expired ==> db.orders[h.orderId].status == OrderExpired)
    && h.status != Released
  }

  ghost predicate HoldsAgree(db: Db) {
    forall k :: 0 <= k < |db.holds| ==> HoldAgrees(db, db.holds[k])
  }

  ghost predicate Held(db: Db, orderId: nat, b: nat) {
    exists k :: 0 <= k < |db.holds| && db.holds[k].orderId == orderId && db.holds[k].batchId == b
  }

  /** Every ticket unit of every order is covered by a hold on its batch. */
  ghost predicate UnitsHeld(db: Db) {
    forall o, i :: 0 <= o < |db.orders| && 0 <= i < |db.orders[o].items| && db.orders[o].items[i].TicketItem? ==>
      Held(db, o, db.orders[o].items[i].batchId)
  }

  predicate TicketAgrees(db: Db, t: Ticket) {
    && t.orderId < |db.orders|
    && t.item < |db.orders[t.orderId].items|
    && db.orders[t.orderId].items[t.item].TicketItem?
    && ReachedPaid(db.orders[t.orderId].status)
  }

  ghost predicate TicketsAgree(db: Db) {
    && (forall k :: 0 <= k < |db.tickets| ==> TicketAgrees(db, db.tickets[k]))
    && (forall j, k :: 0 <= j < k < |db.tickets| ==>
          db.tickets[j].orderId != db.tickets[k].orderId || db.tickets[j].item != db.tickets[k].item)
  }

  ghost predicate CapacityFits(db: Db) {
    && (forall b :: 0 <= b < |db.batches| ==> db.batches[b].eventId < |db.events|)
    && (forall e :: 0 <= e < |db.events| && db.events[e].capacity.Some? ==>
          EventTotal(db, e) <= db.events[e].capacity.value)
  }

  ghost predicate Inv(db: Db) {
    && CountersMatch(db)
    && HoldsAgree(db)
    && UnitsHeld(db)
    && TicketsAgree(db)
    && CapacityFits(db)
    && (forall o :: 0 <= o < |db.orders| ==> db.orders[o].status != Created)
    && (forall p :: 0 <= p < |db.payments| ==> db.payments[p].orderId < |db.orders|)
  }

  // ----- Grouping units into lines -------------------------------------------------

  predicate DistinctBatches(lines: seq<Line>) {
    forall i, j :: 0 <= i < j < |lines| ==> lines[i].batchId != lines[j].batchId
  }

  lemma {:induction false} AddUnitCounts(lines: seq<Line>, b: nat, c: nat)
    ensures Sum(AddUnit(lines, b), LineOf(c)) == Sum(lines, LineOf(c)) + IfOf(b == c, 1)
  {
    if lines == [] {
      SumPush([], Line(b, 1), LineOf(c));
    } else {
      var rest := lines[1..];
      assert lines == [lines[0]] + rest;
      SumConcat([lines[0]], rest, LineOf(c));
      SumPush([], lines[0], LineOf(c));
      if lines[0].batchId == b {
        var bumped := Line(b, lines[0].quantity + 1);
        SumConcat([bumped], rest, LineOf(c));
        SumPush([], bumped, LineOf(c));
      } else {
        AddUnitCounts(rest, b, c);
        SumConcat([lines[0]], AddUnit(rest, b), LineOf(c));
      }
    }
  }

  ghost predicate HasLine(lines: seq<Line>, b: nat) {
    exists i :: 0 <= i < |lines| && lines[i].batchId == b
  }

  lemma {:induction false} AddUnitHasLine(lines: seq<Line>, b: nat, c: nat)
    ensures HasLine(AddUnit(lines, b), c) <==> HasLine(lines, c) || b == c
  {
    var out := AddUnit(lines, b);
    if lines == [] {
      assert out[0].batchId == b;
    } else if lines[0].batchId == b {
      assert out[0].batchId == b;
      assert forall i :: 0 <= i < |lines| ==> out[i].batchId == lines[i].batchId;
    } else {
      var rest := lines[1..];
      AddUnitHasLine(rest, b, c);
      assert forall i :: 1 <= i < |out| ==> out[i] == AddUnit(rest, b)[i - 1];
      assert forall i :: 0 <= i < |AddUnit(rest, b)| ==> AddUnit(rest, b)[i] == out[i + 1];
      assert forall i :: 0 <= i < |rest| ==> rest[i] == lines[i + 1];
      assert out[0] == lines[0];
    }
  }

  lemma {:induction false} AddUnitDistinct(lines: seq<Line>, b: nat)
    requires DistinctBatches(lines)
    ensures DistinctBatches(AddUnit(lines, b))
  {
    if lines != [] && lines[0].batchId != b {
      AddUnitDistinct(lines[1..], b);
      AddUnitHasLine(lines[1..], b, lines[0].batchId);
    }
  }

  lemma {:induction false} GroupUnitsDistinct(items: seq<Item>)
    ensures DistinctBatches(GroupUnits(items))
  {
    if items != [] {
      var n := |items| - 1;
      GroupUnitsDistinct(items[..n]);
      if items[n].TicketItem? {
        AddUnitDistinct(GroupUnits(items[..n]), items[n].batchId);
      }
    }
  }

  lemma {:induction false} GroupUnitsHasLine(items: seq<Item>, i: nat)
    requires i < |items| && items[i].TicketItem?
    ensures HasLine(GroupUnits(items), items[i].batchId)
  {
    var n := |items| - 1;
    if i < n {
      GroupUnitsHasLine(items[..n], i);
    }
    if items[n].TicketItem? {
      AddUnitHasLine(GroupUnits(items[..n]), items[n].batchId, items[i].batchId);
    }
  }

  lemma {:induction false} GroupUnitsCounts(items: seq<Item>, b: nat)
    ensures Sum(GroupUnits(items), LineOf(b)) == Units(items, b)
  {
    if items != [] {
      var n := |items| - 1;
      GroupUnitsCounts(items[..n], b);
      if items[n].TicketItem? {
        AddUnitCounts(GroupUnits(items[..n]), items[n].batchId, b);
      }
    }
  }

  /**
   * The per-batch lines of a checkout: one line per batch, carrying exactly the number of
   * ticket units of that batch, and one for every batch that has units.
   */
  lemma GroupUnitsExact(items: seq<Item>)
    ensures DistinctBatches(GroupUnits(items))
    ensures forall k :: 0 <= k < |GroupUnits(items)| ==>
      GroupUnits(items)[k].quantity == Units(items, GroupUnits(items)[k].batchId)
    ensures forall i :: 0 <= i < |items| && items[i].TicketItem? ==> HasLine(GroupUnits(items), items[i].batchId)
  {
    var lines := GroupUnits(items);
    GroupUnitsDistinct(items);
    forall k | 0 <= k < |lines| ensures lines[k].quantity == Units(items, lines[k].batchId) {
      GroupUnitsCounts(items, lines[k].batchId);
      OneLineOneSum(lines, k);
    }
    forall i | 0 <= i < |items| && items[i].TicketItem? ensures HasLine(lines, items[i].batchId) {
      GroupUnitsHasLine(items, i);
    }
  }

  lemma {:induction false} OneLineOneSum(lines: seq<Line>, k: nat)
    requires DistinctBatches(lines) && k < |lines|
    ensures lines[k].quantity == Sum(lines, LineOf(lines[k].batchId))
  {
    var n := |lines| - 1;
    if k < n {
      OneLineOneSum(lines[..n], k);
    } else {
      SumZero(lines[..n], LineOf(lines[n].batchId));
    }
  }

  // ----- Reserving -----------------------------------------------------------------

  /** Every line's batch is open with room for all the lines on that batch together. */
  ghost predicate AllFit(batches: seq<Batch>, lines: seq<Line>) {
    forall i :: 0 <= i < |lines| ==> Fits(batches, lines[i].batchId, Demand(lines, lines[i].batchId))
  }

  function Demand(lines: seq<Line>, b: nat): nat {
    SumNonNegative(lines, LineOf(b));
    Sum(lines, LineOf(b))
  }

  lemma DemandHead(lines: seq<Line>, b: nat)
    requires lines != []
    ensures Demand(lines, b) == IfOf(lines[0].batchId == b, lines[0].quantity) + Demand(lines[1..], b)
  {
    assert lines == [lines[0]] + lines[1..];
    SumConcat([lines[0]], lines[1..], LineOf(b));
    SumPush([], lines[0], LineOf(b));
  }

  /**
   * A reservation is all-or-nothing and exact: it goes through precisely when, batch by
   * batch, the demand of all its lines together fits an open batch.
   */
  lemma {:induction false} ReserveSucceedsExactlyWhenAllFit(db: Db, orderId: nat, expiresAt: int, lines: seq<Line>)
    ensures ReserveLines(db, orderId, expiresAt, lines).Some? <==> AllFit(db.batches, lines)
    decreases lines
  {
    if lines != [] {
      var head, rest := lines[0], lines[1..];
      DemandHead(lines, head.batchId);
      if Fits(db.batches, head.batchId, head.quantity) {
        var db' := ReserveLine(db, orderId, expiresAt, head).value;
        ReserveSucceedsExactlyWhenAllFit(db', orderId, expiresAt, rest);
        forall i | 0 <= i < |rest|
          ensures lines[i + 1] == rest[i]
          ensures Fits(db.batches, rest[i].batchId, Demand(lines, rest[i].batchId))
            <==> Fits(db'.batches, rest[i].batchId, Demand(rest, rest[i].batchId))
        {
          DemandHead(lines, rest[i].batchId);
        }
        if AllFit(db'.batches, rest) {
          forall i | 0 <= i < |lines| ensures Fits(db.batches, lines[i].batchId, Demand(lines, lines[i].batchId)) {
            if i > 0 {
              assert lines[i] == rest[i - 1];
            } else if exists j :: 0 <= j < |rest| && rest[j].batchId == head.batchId {
              var j :| 0 <= j < |rest| && rest[j].batchId == head.batchId;
              assert Fits(db'.batches, rest[j].batchId, Demand(rest, rest[j].batchId));
            } else {
              SumZero(rest, LineOf(head.batchId));
            }
          }
        }
      }
    }
  }

  /** The holds of before, followed by one ACTIVE hold of the order for each line. */
  ghost predicate HoldsAppended(before: seq<Hold>, after: seq<Hold>, orderId: nat, expiresAt: int, lines: seq<Line>) {
    && |after| == |before| + |lines|
    && after[..|before|] == before
    && (forall i :: 0 <= i < |lines| ==>
          after[|before| + i] == Hold(lines[i].batchId, orderId, Active, lines[i].quantity, expiresAt))
  }

  /** What reserving changes: exactly the demanded units, and exactly the new holds. */
  lemma {:induction false} ReserveEffect(db: Db, orderId: nat, expiresAt: int, lines: seq<Line>)
    requires ReserveLines(db, orderId, expiresAt, lines).Some?
    ensures var db' := ReserveLines(db, orderId, expiresAt, lines).value;
      && db' == db.(batches := db'.batches, holds := db'.holds)
      && |db'.batches| == |db.batches|
      && (forall b :: 0 <= b < |db.batches| ==>
            db'.batches[b] == db.batches[b].(reserved := db.batches[b].reserved + Demand(lines, b)))
      && HoldsAppended(db.holds, db'.holds, orderId, expiresAt, lines)
    decreases lines
  {
    if lines == [] {
      assert db.holds[..|db.holds|] == db.holds;
    } else {
      var mid := ReserveLine(db, orderId, expiresAt, lines[0]).value;
      ReserveEffect(mid, orderId, expiresAt, lines[1..]);
      var db' := ReserveLines(db, orderId, expiresAt, lines).value;
      forall b | 0 <= b < |db.batches|
        ensures db'.batches[b] == db.batches[b].(reserved := db.batches[b].reserved + Demand(lines, b))
      {
        DemandHead(lines, b);
      }
      assert db'.holds[..|db.holds|] == db.holds by {
        assert db'.holds[..|mid.holds|] == mid.holds;
        assert db'.holds[..|db.holds|] == mid.holds[..|db.holds|];
      }
      forall i | 0 <= i < |lines|
        ensures db'.holds[|db.holds| + i] == Hold(lines[i].batchId, orderId, Active, lines[i].quantity, expiresAt)
      {
        if i == 0 {
          assert db'.holds[|db.holds|] == db'.holds[..|mid.holds|][|db.holds|];
        } else {
          assert lines[i] == lines[1..][i - 1];
        }
      }
    }
  }

  // ----- How the tables may move -------------------------------------------------------

  predicate StatusMoves(a: OrderStatus, b: OrderStatus) {
    a == b || a in Unpaid || (a in Refundable && b in {Refunded, Chargeback})
  }

  /** Rows are only added, order contents are frozen, and statuses only move forward. */
  ghost predicate Advances(db: Db, db': Db) {
    && |db.orders| <= |db'.orders|
    && |db.payments| <= |db'.payments|
    && (forall o :: 0 <= o < |db.orders| ==>
          && db'.orders[o].items == db.orders[o].items
          && StatusMoves(db.orders[o].status, db'.orders[o].status))
    && (forall p :: 0 <= p < |db.payments| ==> db'.payments[p].orderId == db.payments[p].orderId)
    && (forall o, i :: HasTicket(db.tickets, o, i) ==> HasTicket(db'.tickets, o, i))
  }

  lemma AdvancesTransitive(a: Db, b: Db, c: Db)
    requires Advances(a, b) && Advances(b, c)
    ensures Advances(a, c)
  {
    forall o | 0 <= o < |a.orders|
      ensures c.orders[o].items == a.orders[o].items && StatusMoves(a.orders[o].status, c.orders[o].status)
    {
      assert b.orders[o].items == a.orders[o].items && StatusMoves(a.orders[o].status, b.orders[o].status);
    }
    forall p | 0 <= p < |a.payments| ensures c.payments[p].orderId == a.payments[p].orderId {
      assert b.payments[p].orderId == a.payments[p].orderId;
    }
  }

  // ----- Checkout keeps the invariant ----------------------------------------------------

  lemma ReserveLineKeeps(db: Db, o: nat, expiresAt: int, line: Line)
    requires CountersMatch(db) && HoldsAgree(db) && CapacityFits(db)
    requires o < |db.orders| && line.quantity == Units(db.orders[o].items, line.batchId)
    requires ReserveLine(db, o, expiresAt, line).Some?
    ensures var db' := ReserveLine(db, o, expiresAt, line).value;
      CountersMatch(db') && HoldsAgree(db') && CapacityFits(db')
  {
    var db' := ReserveLine(db, o, expiresAt, line).value;
    var hold := Hold(line.batchId, o, Active, line.quantity, expiresAt);
    forall b | 0 <= b < |db.batches|
      ensures db'.batches[b].reserved == Sum(db'.holds, HeldIn(b, Active))
      ensures db'.batches[b].sold == Sum(db'.holds, HeldIn(b, Confirmed))
    {
      SumPush(db.holds, hold, HeldIn(b, Active));
      SumPush(db.holds, hold, HeldIn(b, Confirmed));
    }
    forall k | 0 <= k < |db'.holds| ensures HoldAgrees(db', db'.holds[k]) {
      if k < |db.holds| {
        assert HoldAgrees(db, db.holds[k]);
      }
    }
    TotalsUnchanged(db, db');
  }

  lemma TotalsUnchanged(db: Db, db': Db)
    requires CapacityFits(db) && db'.events == db.events && |db'.batches| == |db.batches|
    requires forall b :: 0 <= b < |db.batches| ==>
      db'.batches[b].eventId == db.batches[b].eventId && db'.batches[b].total == db.batches[b].total
    ensures CapacityFits(db')
  {
    forall e | 0 <= e < |db.events| ensures EventTotal(db', e) == EventTotal(db, e) {
      SumFromPointwise(db'.batches, db.batches, TotalIn(e));
    }
  }

  lemma {:induction false} ReserveLinesKeep(db: Db, o: nat, expiresAt: int, lines: seq<Line>)
    requires CountersMatch(db) && HoldsAgree(db) && CapacityFits(db) && o < |db.orders|
    requires forall k :: 0 <= k < |lines| ==> lines[k].quantity == Units(db.orders[o].items, lines[k].batchId)
    requires ReserveLines(db, o, expiresAt, lines).Some?
    ensures var db' := ReserveLines(db, o, expiresAt, lines).value;
      CountersMatch(db') && HoldsAgree(db') && CapacityFits(db')
    decreases lines
  {
    if lines != [] {
      ReserveLineKeeps(db, o, expiresAt, lines[0]);
      ReserveLinesKeep(ReserveLine(db, o, expiresAt, lines[0]).value, o, expiresAt, lines[1..]);
    }
  }

  lemma CheckoutHoldsUnits(db: Db, db': Db, lines: seq<Line>, row: Order)
    requires UnitsHeld(db) && db'.orders == db.orders + [row]
    requires HoldsAppended(db.holds, db'.holds, |db.orders|, row.expiresAt, lines)
    requires forall i :: 0 <= i < |row.items| && row.items[i].TicketItem? ==> HasLine(lines, row.items[i].batchId)
    ensures UnitsHeld(db')
  {
    forall p, i | 0 <= p < |db'.orders| && 0 <= i < |db'.orders[p].items| && db'.orders[p].items[i].TicketItem?
      ensures Held(db', p, db'.orders[p].items[i].batchId)
    {
      var b := db'.orders[p].items[i].batchId;
      if p < |db.orders| {
        assert Held(db, p, b);
        var k :| 0 <= k < |db.holds| && db.holds[k].orderId == p && db.holds[k].batchId == b;
        assert db'.holds[..|db.holds|][k] == db.holds[k];
      } else {
        var k :| 0 <= k < |lines| && lines[k].batchId == b;
        assert db'.holds[|db.holds| + k].orderId == p;
      }
    }
  }

  /** The order row alone changes nothing the invariant says about holds, counters and tickets. */
  lemma OrderRowKeeps(db: Db, row: Order)
    requires Inv(db)
    ensures var db1 := db.(orders := db.orders + [row]);
      CountersMatch(db1) && HoldsAgree(db1) && CapacityFits(db1) && TicketsAgree(db1)
  {
    var db1 := db.(orders := db.orders + [row]);
    forall k | 0 <= k < |db.holds| ensures HoldAgrees(db1, db.holds[k]) {
      assert HoldAgrees(db, db.holds[k]);
    }
    CapacityFromSame(db, db1);
    SameTicketsAgree(db, db1);
  }

  lemma CheckoutReserves(db1: Db, o: nat, items: seq<Item>, expiresAt: int)
    requires CountersMatch(db1) && HoldsAgree(db1) && CapacityFits(db1) && TicketsAgree(db1)
    requires o < |db1.orders| && db1.orders[o].items == items
    requires ReserveLines(db1, o, expiresAt, GroupUnits(items)).Some?
    ensures var db' := ReserveLines(db1, o, expiresAt, GroupUnits(items)).value;
      CountersMatch(db') && HoldsAgree(db') && CapacityFits(db') && TicketsAgree(db')
  {
    GroupUnitsExact(items);
    ReserveLinesKeep(db1, o, expiresAt, GroupUnits(items));
    ReserveEffect(db1, o, expiresAt, GroupUnits(items));
    SameTicketsAgree(db1, ReserveLines(db1, o, expiresAt, GroupUnits(items)).value);
  }

  lemma CheckoutCovers(db: Db, row: Order)
    requires Inv(db) && ReserveLines(db.(orders := db.orders + [row]), |db.orders|, row.expiresAt, GroupUnits(row.items)).Some?
    ensures var db' := ReserveLines(db.(orders := db.orders + [row]), |db.orders|, row.expiresAt, GroupUnits(row.items)).value;
      && UnitsHeld(db')
      && db'.orders == db.orders + [row] && db'.payments == db.payments && db'.tickets == db.tickets
  {
    var db1 := db.(orders := db.orders + [row]);
    var db' := ReserveLines(db1, |db.orders|, row.expiresAt, GroupUnits(row.items)).value;
    GroupUnitsExact(row.items);
    ReserveEffect(db1, |db.orders|, row.expiresAt, GroupUnits(row.items));
    CheckoutHoldsUnits(db, db', GroupUnits(row.items), row);
  }

  /** A checkout keeps the invariant: its holds cover exactly the units it sells. */
  lemma CheckoutKeeps(db: Db, eventId: nat, items: seq<Item>, expiresAt: int)
    requires Inv(db)
    requires CreatePendingOrder(db, eventId, items, expiresAt).Some?
    ensures var db' := CreatePendingOrder(db, eventId, items, expiresAt).value; Inv(db') && Advances(db, db')
  {
    var row := Order(eventId, AwaitingPayment, items, expiresAt);
    OrderRowKeeps(db, row);
    CheckoutReserves(db.(orders := db.orders + [row]), |db.orders|, items, expiresAt);
    CheckoutCovers(db, row);
  }

  /**
   * A checkout is all-or-nothing: it succeeds exactly when, batch by batch, the ticket units
   * it asks for fit an open batch, and then reserves exactly those units.
   */
  lemma CheckoutExact(db: Db, eventId: nat, items: seq<Item>, expiresAt: int)
    ensures CreatePendingOrder(db, eventId, items, expiresAt).Some? <==>
      forall i :: 0 <= i < |items| && items[i].TicketItem? ==>
        Fits(db.batches, items[i].batchId, UnitCount(items, items[i].batchId))
    ensures CreatePendingOrder(db, eventId, items, expiresAt).Some? ==>
      var db' := CreatePendingOrder(db, eventId, items, expiresAt).value;
      && db'.orders == db.orders + [Order(eventId, AwaitingPayment, items, expiresAt)]
      && |db'.batches| == |db.batches|
      && forall b :: 0 <= b < |db.batches| ==>
           db'.batches[b] == db.batches[b].(reserved := db.batches[b].reserved + UnitCount(items, b))
  {
    var lines := GroupUnits(items);
    var db1 := db.(orders := db.orders + [Order(eventId, AwaitingPayment, items, expiresAt)]);
    GroupUnitsExact(items);
    ReserveSucceedsExactlyWhenAllFit(db1, |db.orders|, expiresAt, lines);
    forall b: nat ensures Demand(lines, b) == UnitCount(items, b) {
      GroupUnitsCounts(items, b);
    }
    if CreatePendingOrder(db, eventId, items, expiresAt).Some? {
      ReserveEffect(db1, |db.orders|, expiresAt, lines);
      forall i | 0 <= i < |items| && items[i].TicketItem?
        ensures Fits(db.batches, items[i].batchId, UnitCount(items, items[i].batchId))
      {
        assert HasLine(lines, items[i].batchId);
      }
    } else {
      var k :| 0 <= k < |lines| && !Fits(db.batches, lines[k].batchId, Demand(lines, lines[k].batchId));
      var i := LineHasUnit(items, k);
    }
  }

  function UnitCount(items: seq<Item>, b: nat): nat {
    SumNonNegative(items, UnitOf(b));
    Units(items, b)
  }

  lemma {:induction false} LineHasUnit(items: seq<Item>, k: nat) returns (i: nat)
    requires k < |GroupUnits(items)|
    ensures i < |items| && items[i].TicketItem? && items[i].batchId == GroupUnits(items)[k].batchId
  {
    var n := |items| - 1;
    var rest := GroupUnits(items[..n]);
    if !items[n].TicketItem? {
      i := LineHasUnit(items[..n], k);
    } else if GroupUnits(items)[k].batchId == items[n].batchId {
      i := n;
    } else {
      AddUnitHasLine(rest, items[n].batchId, GroupUnits(items)[k].batchId);
      var j :| 0 <= j < |rest| && rest[j].batchId == GroupUnits(items)[k].batchId;
      i := LineHasUnit(items[..n], j);
    }
  }

  // ----- Confirming and releasing keep the invariant ---------------------------------------

  /** Where the holds of an order may go, given what became of the order. */
  predicate Decided(status: OrderStatus, to: HoldStatus) {
    || (to == Confirmed && ReachedPaid(status))
    || (to == Expired && status == OrderExpired)
  }

  /** Settling one ACTIVE hold moves its units between the sums of its own batch alone. */
  lemma SettledSums(holds: seq<Hold>, id: nat, to: HoldStatus, c: nat)
    requires id < |holds| && holds[id].status == Active && to in {Confirmed, Expired}
    ensures var h := holds[id]; var after := holds[id := h.(status := to)];
      && Sum(after, HeldIn(c, Active)) == Sum(holds, HeldIn(c, Active)) - IfOf(h.batchId == c, h.quantity)
      && Sum(after, HeldIn(c, Confirmed))
          == Sum(holds, HeldIn(c, Confirmed)) + IfOf(h.batchId == c && to == Confirmed, h.quantity)
  {
    SumUpdate(holds, id, holds[id].(status := to), HeldIn(c, Active));
    SumUpdate(holds, id, holds[id].(status := to), HeldIn(c, Confirmed));
  }

  lemma ActiveHoldIsReserved(db: Db, id: nat)
    requires CountersMatch(db) && HoldsAgree(db) && id < |db.holds| && db.holds[id].status == Active
    ensures db.holds[id].batchId < |db.batches| && db.batches[db.holds[id].batchId].reserved >= db.holds[id].quantity
  {
    assert HoldAgrees(db, db.holds[id]);
    SumAtLeast(db.holds, id, HeldIn(db.holds[id].batchId, Active));
  }

  lemma SettleHoldKeepsCounters(db: Db, id: nat, to: HoldStatus)
    requires CountersMatch(db) && HoldsAgree(db) && id < |db.holds| && to in {Confirmed, Expired}
    ensures SettleHold(db, id, to).Moved?
    ensures CountersMatch(SettleHold(db, id, to).db)
  {
    if db.holds[id].status == Active {
      ActiveHoldIsReserved(db, id);
      var db' := SettleHold(db, id, to).db;
      forall c | 0 <= c < |db.batches|
        ensures db'.batches[c].reserved == Sum(db'.holds, HeldIn(c, Active))
        ensures db'.batches[c].sold == Sum(db'.holds, HeldIn(c, Confirmed))
        ensures Committed(db'.batches[c]) <= db'.batches[c].total
      {
        SettledSums(db.holds, id, to, c);
      }
    }
  }

  lemma SettleHoldKeeps(db: Db, id: nat, to: HoldStatus)
    requires Inv(db) && id < |db.holds|
    requires Decided(db.orders[db.holds[id].orderId].status, to)
    ensures SettleHold(db, id, to).Moved?
    ensures Inv(SettleHold(db, id, to).db)
  {
    SettleHoldKeepsCounters(db, id, to);
    var h := db.holds[id];
    if h.status == Active {
      var db' := SettleHold(db, id, to).db;
      forall k | 0 <= k < |db'.holds| ensures HoldAgrees(db', db'.holds[k]) {
        assert HoldAgrees(db, db.holds[k]);
      }
      TotalsUnchanged(db, db');
      HoldUpdateKeepsUnitsHeld(db, db');
      SameTicketsAgree(db, db');
    }
  }

  lemma SameTicketsAgree(db: Db, db': Db)
    requires TicketsAgree(db) && db'.tickets == db.tickets && |db.orders| <= |db'.orders|
    requires forall o :: 0 <= o < |db.orders| ==>
      && db'.orders[o].items == db.orders[o].items
      && (ReachedPaid(db.orders[o].status) ==> ReachedPaid(db'.orders[o].status))
    ensures TicketsAgree(db')
  {
    forall k | 0 <= k < |db'.tickets| ensures TicketAgrees(db', db'.tickets[k]) {
      assert TicketAgrees(db, db.tickets[k]);
    }
  }

  lemma HoldUpdateKeepsUnitsHeld(db: Db, db': Db)
    requires UnitsHeld(db) && db'.orders == db.orders
    requires |db'.holds| == |db.holds|
    requires forall k :: 0 <= k < |db.holds| ==>
      db'.holds[k].orderId == db.holds[k].orderId && db'.holds[k].batchId == db.holds[k].batchId
    ensures UnitsHeld(db')
  {
    forall o, i | 0 <= o < |db.orders| && 0 <= i < |db.orders[o].items| && db.orders[o].items[i].TicketItem?
      ensures Held(db', o, db.orders[o].items[i].batchId)
    {
      var b := db.orders[o].items[i].batchId;
      assert Held(db, o, b);
      var k :| 0 <= k < |db.holds| && db.holds[k].orderId == o && db.holds[k].batchId == b;
      assert db'.holds[k].orderId == o;
    }
  }

  ghost predicate AllDecided(db: Db, ids: seq<nat>, to: HoldStatus) {
    forall k :: 0 <= k < |ids| ==>
      && ids[k] < |db.holds|
      && db.holds[ids[k]].orderId < |db.orders|
      && Decided(db.orders[db.holds[ids[k]].orderId].status, to)
  }

  /** A whole settling transaction never hits the inconsistent-counters throw. */
  lemma {:induction false} SettleHoldsKeep(db: Db, ids: seq<nat>, to: HoldStatus)
    requires Inv(db) && AllDecided(db, ids, to)
    ensures SettleHolds(db, ids, to).Moved?
    ensures Inv(SettleHolds(db, ids, to).db)
    decreases ids
  {
    if ids != [] {
      SettleHoldKeeps(db, ids[0], to);
      var mid := SettleHold(db, ids[0], to).db;
      assert AllDecided(mid, ids[1..], to);
      SettleHoldsKeep(mid, ids[1..], to);
    }
  }

  /** It settles exactly the listed ACTIVE holds and touches only holds and batches. */
  lemma {:induction false} SettleHoldsEffect(db: Db, ids: seq<nat>, to: HoldStatus)
    requires forall k :: 0 <= k < |ids| ==> ids[k] < |db.holds|
    requires SettleHolds(db, ids, to).Moved? && to != Active
    ensures var db' := SettleHolds(db, ids, to).db;
      && db' == db.(holds := db'.holds, batches := db'.batches)
      && |db'.batches| == |db.batches|
      && (forall h :: 0 <= h < |db.holds| ==>
            db'.holds[h] == if h in ids && db.holds[h].status == Active then db.holds[h].(status := to) else db.holds[h])
    decreases ids
  {
    if ids != [] {
      var mid := SettleHold(db, ids[0], to).db;
      SettleHoldsEffect(mid, ids[1..], to);
      assert forall h :: h in ids <==> h == ids[0] || h in ids[1..];
    }
  }

  lemma {:induction false} ActiveIdsExact(holds: seq<Hold>, o: nat)
    ensures forall h: nat :: h in ActiveIds(holds, o) <==> h < |holds| && holds[h].orderId == o && holds[h].status == Active
  {
    if holds != [] {
      ActiveIdsExact(holds[..|holds| - 1], o);
    }
  }

  /** Only ACTIVE holds of order `o` changed, each to its final status. */
  ghost predicate HoldsSettled(before: seq<Hold>, after: seq<Hold>, o: nat, to: HoldStatus) {
    && |after| == |before|
    && (forall h :: 0 <= h < |before| ==>
          after[h] ==
            if before[h].orderId == o && before[h].status == Active then before[h].(status := to) else before[h])
  }

  function ActiveOf(o: nat): Hold -> int {
    (h: Hold) => IfOf(h.orderId == o && h.status == Active, 1)
  }

  lemma {:induction false} ActiveIdsCount(holds: seq<Hold>, o: nat)
    ensures |ActiveIds(holds, o)| == Sum(holds, ActiveOf(o))
    ensures forall i, j :: 0 <= i < j < |ActiveIds(holds, o)| ==> ActiveIds(holds, o)[i] < ActiveIds(holds, o)[j]
  {
    if holds != [] {
      ActiveIdsCount(holds[..|holds| - 1], o);
      ActiveIdsInRange(holds[..|holds| - 1], o);
    }
  }

  /** Settling distinct ACTIVE holds counts each of them. */
  lemma {:induction false} SettleHoldsCount(db: Db, ids: seq<nat>, to: HoldStatus)
    requires forall k :: 0 <= k < |ids| ==> ids[k] < |db.holds| && db.holds[ids[k]].status == Active
    requires forall i, j :: 0 <= i < j < |ids| ==> ids[i] != ids[j]
    requires SettleHolds(db, ids, to).Moved?
    ensures SettleHolds(db, ids, to).count == |ids|
    decreases ids
  {
    if ids != [] {
      SettleHoldsCount(SettleHold(db, ids[0], to).db, ids[1..], to);
    }
  }

  /**
   * Confirming or releasing an order whose fate is decided: every ACTIVE hold of the order
   * moves to its final status and is counted, no other hold changes, and the transaction never throws.
   */
  lemma SettleOrder(db: Db, o: nat, to: HoldStatus)
    requires Inv(db) && o < |db.orders| && Decided(db.orders[o].status, to)
    ensures ReleaseForOrder(db, o, to).Moved?
    ensures ReleaseForOrder(db, o, to).count == Sum(db.holds, ActiveOf(o))
    ensures var db' := ReleaseForOrder(db, o, to).db;
      && Inv(db') && Advances(db, db')
      && db' == db.(holds := db'.holds, batches := db'.batches)
      && |db'.batches| == |db.batches|
      && HoldsSettled(db.holds, db'.holds, o, to)
    ensures to == Confirmed ==> ConfirmForOrder(db, o) == ReleaseForOrder(db, o, Confirmed)
  {
    ActiveIdsInRange(db.holds, o);
    ActiveIdsExact(db.holds, o);
    ActiveIdsCount(db.holds, o);
    var ids := ActiveIds(db.holds, o);
    forall k | 0 <= k < |ids| ensures db.holds[ids[k]].orderId == o && db.holds[ids[k]].status == Active {
      assert ids[k] in ids;
    }
    SettleHoldsKeep(db, ids, to);
    SettleHoldsEffect(db, ids, to);
    SettleHoldsCount(db, ids, to);
  }

  function ActiveFor(o: nat, b: nat): Hold -> int {
    (h: Hold) => IfOf(h.orderId == o && h.batchId == b && h.status == Active, h.quantity)
  }

  // ----- What settling does to the row of one batch -------------------------------------------

  predicate IsActiveOn(h: Hold, b: nat) {
    h.batchId == b && h.status == Active
  }

  /** One of the listed holds is ACTIVE on batch `b`. */
  predicate AnyOn(holds: seq<Hold>, ids: seq<nat>, b: nat) {
    exists k :: 0 <= k < |ids| && ids[k] < |holds| && IsActiveOn(holds[ids[k]], b)
  }

  /** The order has an ACTIVE hold on the batch. */
  predicate HoldsActive(holds: seq<Hold>, o: nat, b: nat) {
    exists k :: 0 <= k < |holds| && holds[k].orderId == o && IsActiveOn(holds[k], b)
  }

  /** The row keeps its event and size, and a confirmed unit that fills an OPEN batch sells it out. */
  predicate RowSettled(x: Batch, y: Batch, to: HoldStatus, touched: bool) {
    && y.eventId == x.eventId && y.total == x.total && x.sold <= y.sold
    && (to != Confirmed || !touched ==> y.sold == x.sold)
    && y.status == if to == Confirmed && touched && x.status == Open && y.sold >= x.total then SoldOut else x.status
  }

  lemma OneHoldRow(db: Db, id: nat, to: HoldStatus, b: nat)
    requires id < |db.holds| && b < |db.batches| && to != Active && SettleHold(db, id, to).Moved?
    ensures var mid := SettleHold(db, id, to).db;
      && |mid.batches| == |db.batches| && |mid.holds| == |db.holds|
      && RowSettled(db.batches[b], mid.batches[b], to, IsActiveOn(db.holds[id], b))
      && (forall h :: 0 <= h < |db.holds| ==>
            IsActiveOn(db.holds[h], b) == (IsActiveOn(mid.holds[h], b) || (h == id && IsActiveOn(db.holds[id], b))))
  {
  }

  lemma AnyOnSplit(before: seq<Hold>, after: seq<Hold>, ids: seq<nat>, b: nat)
    requires ids != [] && ids[0] < |before| == |after|
    requires forall h :: 0 <= h < |before| ==>
      IsActiveOn(before[h], b) == (IsActiveOn(after[h], b) || (h == ids[0] && IsActiveOn(before[ids[0]], b)))
    ensures AnyOn(before, ids, b) == (IsActiveOn(before[ids[0]], b) || AnyOn(after, ids[1..], b))
  {
    assert forall k :: 0 <= k < |ids| - 1 ==> ids[1..][k] == ids[k + 1];
    if AnyOn(before, ids, b) && !IsActiveOn(before[ids[0]], b) {
      var k :| 0 <= k < |ids| && ids[k] < |before| && IsActiveOn(before[ids[k]], b);
      assert ids[1..][k - 1] == ids[k];
    }
  }

  lemma RowSettledAgain(x: Batch, y: Batch, z: Batch, to: HoldStatus, first: bool, rest: bool)
    requires RowSettled(x, y, to, first) && RowSettled(y, z, to, rest)
    ensures RowSettled(x, z, to, first || rest)
  {
  }

  lemma {:induction false} SettleHoldsRow(db: Db, ids: seq<nat>, to: HoldStatus, b: nat)
    requires forall k :: 0 <= k < |ids| ==> ids[k] < |db.holds|
    requires SettleHolds(db, ids, to).Moved? && to != Active && b < |db.batches|
    ensures b < |SettleHolds(db, ids, to).db.batches|
    ensures RowSettled(db.batches[b], SettleHolds(db, ids, to).db.batches[b], to, AnyOn(db.holds, ids, b))
    decreases ids
  {
    if ids != [] {
      var mid := SettleHold(db, ids[0], to).db;
      OneHoldRow(db, ids[0], to, b);
      SettleHoldsRow(mid, ids[1..], to, b);
      AnyOnSplit(db.holds, mid.holds, ids, b);
      RowSettledAgain(db.batches[b], mid.batches[b], SettleHolds(db, ids, to).db.batches[b], to,
                      IsActiveOn(db.holds[ids[0]], b), AnyOn(mid.holds, ids[1..], b));
    }
  }

  lemma OrderRowSettled(db: Db, o: nat, to: HoldStatus, b: nat)
    requires ReleaseForOrder(db, o, to).Moved? && to != Active && b < |db.batches|
    ensures b < |ReleaseForOrder(db, o, to).db.batches|
    ensures RowSettled(db.batches[b], ReleaseForOrder(db, o, to).db.batches[b], to, HoldsActive(db.holds, o, b))
  {
    var ids := ActiveIds(db.holds, o);
    ActiveIdsInRange(db.holds, o);
    ActiveIdsExact(db.holds, o);
    SettleHoldsRow(db, ids, to, b);
    if HoldsActive(db.holds, o, b) {
      var h: nat :| h < |db.holds| && db.holds[h].orderId == o && IsActiveOn(db.holds[h], b);
      assert h in ids;
    }
    if AnyOn(db.holds, ids, b) {
      var k :| 0 <= k < |ids| && ids[k] < |db.holds| && IsActiveOn(db.holds[ids[k]], b);
      assert ids[k] in ids && db.holds[ids[k]].orderId == o;
    }
  }

  /** A batch row after `moved` of its reserved units were sold on behalf of an order. */
  function SoldRow(x: Batch, moved: nat, touched: bool): Batch
    requires moved <= x.reserved
  {
    Batch(x.eventId,
          if touched && x.status == Open && x.sold + moved >= x.total then SoldOut else x.status,
          x.total, x.sold + moved, x.reserved - moved)
  }

  /** From `x` to `y` the units order `o` held on batch `b` were sold, and nothing else of the row moved. */
  ghost predicate RowSold(x: Batch, y: Batch, holds: seq<Hold>, o: nat, b: nat) {
    var moved := Sum(holds, ActiveFor(o, b));
    0 <= moved <= x.reserved && y == SoldRow(x, moved, HoldsActive(holds, o, b))
  }

  /**
   * One confirmation, batch by batch: the order's reserved units become sold ones, and the batch is
   * SOLD_OUT exactly when it was already, or was OPEN and units of this order filled it.
   */
  lemma ConfirmMovesUnits(db: Db, o: nat, b: nat)
    requires Inv(db) && o < |db.orders| && ReachedPaid(db.orders[o].status) && b < |db.batches|
    ensures ConfirmForOrder(db, o).Moved?
    ensures var db' := ConfirmForOrder(db, o).db;
      && |db'.batches| == |db.batches|
      && HoldsSettled(db.holds, db'.holds, o, Confirmed)
      && RowSold(db.batches[b], db'.batches[b], db.holds, o, b)
  {
    SettleOrder(db, o, Confirmed);
    SumNonNegative(db.holds, ActiveFor(o, b));
    OrderRowSettled(db, o, Confirmed, b);
    ActiveBecomes(db.holds, ConfirmForOrder(db, o).db.holds, o, b, Confirmed);
  }

  /** One expiry: exactly the order's reserved units return to availability, and nothing else of the batch moves. */
  lemma ReleaseReturnsUnits(db: Db, o: nat, b: nat)
    requires Inv(db) && o < |db.orders| && db.orders[o].status == OrderExpired && b < |db.batches|
    ensures ReleaseForOrder(db, o, Expired).Moved?
    ensures 0 <= Sum(db.holds, ActiveFor(o, b)) <= db.batches[b].reserved
    ensures var db' := ReleaseForOrder(db, o, Expired).db;
      && |db'.batches| == |db.batches|
      && HoldsSettled(db.holds, db'.holds, o, Expired)
      && db'.batches[b] == db.batches[b].(reserved := db.batches[b].reserved - Sum(db.holds, ActiveFor(o, b)))
  {
    SettleOrder(db, o, Expired);
    SumNonNegative(db.holds, ActiveFor(o, b));
    OrderRowSettled(db, o, Expired, b);
    ActiveBecomes(db.holds, ReleaseForOrder(db, o, Expired).db.holds, o, b, Expired);
  }

  lemma {:induction false} ActiveBecomes(before: seq<Hold>, after: seq<Hold>, o: nat, b: nat, to: HoldStatus)
    requires HoldsSettled(before, after, o, to) && to in {Confirmed, Expired}
    ensures Sum(after, HeldIn(b, Active)) == Sum(before, HeldIn(b, Active)) - Sum(before, ActiveFor(o, b))
    ensures Sum(after, HeldIn(b, Confirmed))
      == Sum(before, HeldIn(b, Confirmed)) + if to == Confirmed then Sum(before, ActiveFor(o, b)) else 0
  {
    if before != [] {
      var n := |before| - 1;
      ActiveBecomes(before[..n], after[..n], o, b, to);
    }
  }

  // ----- The guarded single statements keep the invariant -----------------------------------

  /** Only the status of order `o` moved, and forward. */
  predicate OneStatusMoved(db: Db, db': Db, o: nat) {
    && o < |db.orders| == |db'.orders| && StatusMoves(db.orders[o].status, db'.orders[o].status)
    && db.orders[o].status != OrderExpired && db'.orders[o].status != Created
    && (ReachedPaid(db.orders[o].status) ==> ReachedPaid(db'.orders[o].status))
  }

  lemma StatusMoveKeepsHolds(db: Db, db': Db, o: nat)
    requires HoldsAgree(db) && UnitsHeld(db)
    requires db' == db.(orders := db'.orders) && OneStatusMoved(db, db', o)
    requires db'.orders == db.orders[o := db.orders[o].(status := db'.orders[o].status)]
    ensures HoldsAgree(db') && UnitsHeld(db')
  {
    forall k | 0 <= k < |db'.holds| ensures HoldAgrees(db', db'.holds[k]) {
      assert HoldAgrees(db, db.holds[k]);
    }
    forall p, i | 0 <= p < |db'.orders| && 0 <= i < |db'.orders[p].items| && db'.orders[p].items[i].TicketItem?
      ensures Held(db', p, db'.orders[p].items[i].batchId)
    {
      assert Held(db, p, db.orders[p].items[i].batchId);
    }
  }

  lemma TransitionOrderKeeps(db: Db, o: nat, from: set<OrderStatus>, to: OrderStatus)
    requires Inv(db)
    requires forall s :: s in from ==> StatusMoves(s, to) && s != OrderExpired
    requires to != Created
    requires from <= Unpaid || to in {Refunded, Chargeback}
    requires from <= Unpaid || from <= Refundable
    ensures var r := TransitionOrder(db, o, from, to); Inv(r.db) && Advances(db, r.db)
  {
    var db' := TransitionOrder(db, o, from, to).db;
    if TransitionOrder(db, o, from, to).changed {
      assert OneStatusMoved(db, db', o);
      StatusMoveKeepsHolds(db, db', o);
      SameTicketsAgree(db, db');
      CapacityFromSame(db, db');
    }
  }

  lemma TransitionPaymentKeeps(db: Db, p: nat, from: set<PaymentStatus>, to: PaymentStatus)
    requires Inv(db)
    ensures var r := TransitionPayment(db, p, from, to); Inv(r.db) && Advances(db, r.db)
  {
    OnlyPaymentsChanged(db, TransitionPayment(db, p, from, to).db);
  }

  lemma NewPaymentKeeps(db: Db, o: nat)
    requires Inv(db) && o < |db.orders|
    ensures var db' := db.(payments := db.payments + [Payment(o, PaymentCreated)]); Inv(db') && Advances(db, db')
  {
    OnlyPaymentsChanged(db, db.(payments := db.payments + [Payment(o, PaymentCreated)]));
  }

  lemma OnlyPaymentsChanged(db: Db, db': Db)
    requires Inv(db) && db' == db.(payments := db'.payments) && |db.payments| <= |db'.payments|
    requires forall p :: 0 <= p < |db'.payments| ==> db'.payments[p].orderId < |db.orders|
    requires forall p :: 0 <= p < |db.payments| ==> db'.payments[p].orderId == db.payments[p].orderId
    ensures Inv(db') && Advances(db, db')
  {
    forall k | 0 <= k < |db'.holds| ensures HoldAgrees(db', db'.holds[k]) {
      assert HoldAgrees(db, db.holds[k]);
    }
    forall p, i | 0 <= p < |db'.orders| && 0 <= i < |db'.orders[p].items| && db'.orders[p].items[i].TicketItem?
      ensures Held(db', p, db'.orders[p].items[i].batchId)
    {
      assert Held(db, p, db.orders[p].items[i].batchId);
    }
    forall k | 0 <= k < |db'.tickets| ensures TicketAgrees(db', db'.tickets[k]) {
      assert TicketAgrees(db, db.tickets[k]);
    }
    CapacityFromSame(db, db');
  }

  lemma CapacityFromSame(db: Db, db': Db)
    requires CapacityFits(db) && db'.events == db.events && db'.batches == db.batches
    ensures CapacityFits(db')
  {
    forall e | 0 <= e < |db'.events| && db'.events[e].capacity.Some?
      ensures EventTotal(db', e) <= db'.events[e].capacity.value
    {
      assert EventTotal(db, e) <= db.events[e].capacity.value;
    }
  }
}
