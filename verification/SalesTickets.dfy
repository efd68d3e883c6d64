/** Ticket emission, its exactly-once guarantee, and the bound of tickets by inventory. */
module SalesTickets {
  import opened Base
  import opened SalesModel
  import opened SalesInvariant

  /** Every ticket item of the order has a ticket row. */
  ghost predicate AllTicketed(db: Db, o: nat) {
    && o < |db.orders|
    && (forall i :: 0 <= i < |db.orders[o].items| && db.orders[o].items[i].TicketItem? ==> HasTicket(db.tickets, o, i))
  }

  function AtItem(o: nat, i: nat): Ticket -> int {
    (t: Ticket) => IfOf(t.orderId == o && t.item == i, 1)
  }

  lemma SameHoldsAgree(db: Db, db': Db)
    requires Inv(db) && db' == db.(tickets := db'.tickets)
    ensures CountersMatch(db') && HoldsAgree(db') && UnitsHeld(db') && CapacityFits(db')
  {
    forall k | 0 <= k < |db'.holds| ensures HoldAgrees(db', db'.holds[k]) {
      assert HoldAgrees(db, db.holds[k]);
    }
    HoldUpdateKeepsUnitsHeld(db, db');
    CapacityFromSame(db, db');
  }

  lemma InsertTicketKeeps(db: Db, o: nat, i: nat)
    requires Inv(db) && TicketAgrees(db, Ticket(o, i, Valid))
    ensures var db' := InsertTicket(db, o, i);
      Inv(db') && Advances(db, db') && db' == db.(tickets := db'.tickets) && HasTicket(db'.tickets, o, i)
  {
    var db' := InsertTicket(db, o, i);
    if !HasTicket(db.tickets, o, i) {
      SameHoldsAgree(db, db');
      forall k | 0 <= k < |db'.tickets| ensures TicketAgrees(db', db'.tickets[k]) {
        if k < |db.tickets| {
          assert TicketAgrees(db, db.tickets[k]);
        }
      }
      assert db'.tickets[|db.tickets|] == Ticket(o, i, Valid);
      TicketsOnlyAdded(db, db');
    }
  }

  lemma TicketsOnlyAdded(db: Db, db': Db)
    requires db' == db.(tickets := db'.tickets)
    requires |db.tickets| <= |db'.tickets|
    requires forall k :: 0 <= k < |db.tickets| ==>
      db'.tickets[k].orderId == db.tickets[k].orderId && db'.tickets[k].item == db.tickets[k].item
    ensures Advances(db, db')
  {
    forall o, i | HasTicket(db.tickets, o, i) ensures HasTicket(db'.tickets, o, i) {
      var k :| 0 <= k < |db.tickets| && db.tickets[k].orderId == o && db.tickets[k].item == i;
      assert db'.tickets[k].orderId == o;
    }
  }

  /** Every ticket item from `next` on that is not in `known` has its ticket. */
  ghost predicate TicketedFrom(db: Db, o: nat, known: set<nat>, next: nat)
    requires o < |db.orders|
  {
    forall i :: next <= i < |db.orders[o].items| && db.orders[o].items[i].TicketItem? && i !in known ==>
      HasTicket(db.tickets, o, i)
  }

  lemma TicketedFromOneBefore(db: Db, db': Db, o: nat, known: set<nat>, next: nat)
    requires o < |db.orders| && next < |db.orders[o].items| && Advances(db, db') && TicketedFrom(db', o, known, next + 1)
    requires next in known || !db.orders[o].items[next].TicketItem? || HasTicket(db.tickets, o, next)
    ensures TicketedFrom(db', o, known, next)
  {
    assert db'.orders[o].items == db.orders[o].items;
  }

  /** The insert of one ticket and the rest of the loop, taken together. */
  lemma InsertThenIssue(db: Db, db': Db, o: nat, known: set<nat>, next: nat)
    requires o < |db.orders| && next < |db.orders[o].items|
    requires var mid := InsertTicket(db, o, next);
      && Advances(db, mid) && HasTicket(mid.tickets, o, next)
      && Advances(mid, db') && TicketedFrom(db', o, known, next + 1)
    ensures Advances(db, db') && TicketedFrom(db', o, known, next)
  {
    var mid := InsertTicket(db, o, next);
    AdvancesTransitive(db, mid, db');
    TicketedFromOneBefore(mid, db', o, known, next);
  }

  /** An issuer's loop tickets every remaining item it did not already see ticketed. */
  lemma {:induction false} IssueFromCompletes(db: Db, o: nat, known: set<nat>, next: nat)
    requires Inv(db) && o < |db.orders| && ReachedPaid(db.orders[o].status)
    ensures var db' := IssueFrom(db, o, known, next);
      && Inv(db') && Advances(db, db') && db' == db.(tickets := db'.tickets)
      && TicketedFrom(db', o, known, next)
    decreases |db.orders[o].items| - next
  {
    var db' := IssueFrom(db, o, known, next);
    if next >= |db.orders[o].items| {
      assert db' == db;
    } else if next in known || !db.orders[o].items[next].TicketItem? {
      IssueFromCompletes(db, o, known, next + 1);
      TicketedFromOneBefore(db, db', o, known, next);
    } else {
      InsertTicketKeeps(db, o, next);
      IssueFromCompletes(InsertTicket(db, o, next), o, known, next + 1);
      InsertThenIssue(db, db', o, known, next);
    }
  }

  /** Only rows for items of order `o` were added, each VALID; every earlier row is as it was. */
  ghost predicate OnlyIssued(before: seq<Ticket>, after: seq<Ticket>, o: nat) {
    && |before| <= |after|
    && (forall k :: 0 <= k < |before| ==> after[k] == before[k])
    && (forall k :: |before| <= k < |after| ==> after[k] == Ticket(o, after[k].item, Valid))
  }

  lemma {:induction false} IssueFromOnlyIssues(db: Db, o: nat, known: set<nat>, next: nat)
    requires o < |db.orders|
    ensures var db' := IssueFrom(db, o, known, next);
      db' == db.(tickets := db'.tickets) && OnlyIssued(db.tickets, db'.tickets, o)
    decreases |db.orders[o].items| - next
  {
    if next < |db.orders[o].items| {
      if next in known || !db.orders[o].items[next].TicketItem? {
        IssueFromOnlyIssues(db, o, known, next + 1);
      } else {
        IssueFromOnlyIssues(InsertTicket(db, o, next), o, known, next + 1);
      }
    }
  }

  lemma KnownItemsHaveTickets(tickets: seq<Ticket>, o: nat)
    ensures forall i :: i in KnownItems(tickets, o) <==> HasTicket(tickets, o, i)
  {
  }

  /**
   * Emission is exactly-once: whatever was issued before, one uninterrupted call on a PAID order
   * leaves every ticket item with exactly one ticket and every product item with none; it adds VALID
   * tickets of this order alone.
   */
  lemma IssueForOrderCompletes(db: Db, o: nat)
    requires Inv(db) && IssueForOrder(db, o).Some?
    ensures var db' := IssueForOrder(db, o).value;
      && Inv(db') && Advances(db, db') && db' == db.(tickets := db'.tickets)
      && AllTicketed(db', o) && OnlyIssued(db.tickets, db'.tickets, o)
      && (forall i :: 0 <= i < |db'.orders[o].items| ==>
            Sum(db'.tickets, AtItem(o, i)) == IfOf(db'.orders[o].items[i].TicketItem?, 1))
  {
    var known := KnownItems(db.tickets, o);
    var db' := IssueFrom(db, o, known, 0);
    IssueFromCompletes(db, o, known, 0);
    IssueFromOnlyIssues(db, o, known, 0);
    KnownItemsHaveTickets(db.tickets, o);
    forall i | 0 <= i < |db'.orders[o].items|
      ensures Sum(db'.tickets, AtItem(o, i)) == IfOf(db'.orders[o].items[i].TicketItem?, 1)
    {
      TicketCountExact(db', o, i);
    }
  }

  /** In every consistent state an item has one ticket or none, and a product item none. */
  lemma TicketCountExact(db: Db, o: nat, i: nat)
    requires TicketsAgree(db)
    ensures Sum(db.tickets, AtItem(o, i)) == IfOf(HasTicket(db.tickets, o, i), 1)
    ensures HasTicket(db.tickets, o, i) ==> TicketAgrees(db, Ticket(o, i, Valid))
  {
    if HasTicket(db.tickets, o, i) {
      var k :| 0 <= k < |db.tickets| && db.tickets[k].orderId == o && db.tickets[k].item == i;
      assert TicketAgrees(db, db.tickets[k]);
      OnlyOneRow(db.tickets, k, o, i);
    } else {
      SumZero(db.tickets, AtItem(o, i));
    }
  }

  lemma {:induction false} OnlyOneRow(tickets: seq<Ticket>, k: nat, o: nat, i: nat)
    requires k < |tickets| && tickets[k].orderId == o && tickets[k].item == i
    requires forall j :: 0 <= j < |tickets| && j != k ==> tickets[j].orderId != o || tickets[j].item != i
    ensures Sum(tickets, AtItem(o, i)) == 1
  {
    var n := |tickets| - 1;
    if k == n {
      SumZero(tickets[..n], AtItem(o, i));
    } else {
      OnlyOneRow(tickets[..n], k, o, i);
    }
  }

  // ----- Ticket status changes ------------------------------------------------------------

  lemma TicketStatusesKeep(db: Db, db': Db)
    requires Inv(db) && db' == db.(tickets := db'.tickets) && |db'.tickets| == |db.tickets|
    requires forall k :: 0 <= k < |db.tickets| ==>
      db'.tickets[k].orderId == db.tickets[k].orderId && db'.tickets[k].item == db.tickets[k].item
    ensures Inv(db') && Advances(db, db')
  {
    SameHoldsAgree(db, db');
    forall k | 0 <= k < |db'.tickets| ensures TicketAgrees(db', db'.tickets[k]) {
      assert TicketAgrees(db, db.tickets[k]);
    }
    TicketsOnlyAdded(db, db');
  }

  /** A refund closes exactly the order's VALID and BLOCKED tickets and deletes no row. */
  lemma RefundTicketsKeeps(db: Db, o: nat)
    requires Inv(db)
    ensures var db' := RefundTickets(db, o);
      && Inv(db') && Advances(db, db')
      && (forall k :: 0 <= k < |db.tickets| ==>
            && (db.tickets[k].orderId == o ==> db'.tickets[k].status !in {Valid, Blocked})
            && (db'.tickets[k] != db.tickets[k] ==>
                  db.tickets[k].orderId == o && db'.tickets[k].status == TicketRefunded))
  {
    TicketStatusesKeep(db, RefundTickets(db, o));
  }

  lemma TransitionTicketKeeps(db: Db, t: nat, from: set<TicketStatus>, to: TicketStatus)
    requires Inv(db)
    ensures var r := TransitionTicket(db, t, from, to); Inv(r.db) && Advances(db, r.db)
  {
    TicketStatusesKeep(db, TransitionTicket(db, t, from, to).db);
  }

  // ----- No oversell: tickets issued for a batch never exceed its committed units ---------------

  /** The order items, as (order, position) cells, that are units of batch `b`. */
  function ItemCells(o: nat, items: seq<Item>, b: nat): set<(nat, nat)> {
    set i: nat | i < |items| && items[i].TicketItem? && items[i].batchId == b :: (o, i)
  }

  lemma {:induction false} ItemCellsCount(o: nat, items: seq<Item>, b: nat)
    ensures |ItemCells(o, items, b)| == Units(items, b)
  {
    if items != [] {
      var n := |items| - 1;
      ItemCellsCount(o, items[..n], b);
      var last: set<(nat, nat)> := if items[n].TicketItem? && items[n].batchId == b then {(o, n)} else {};
      assert ItemCells(o, items, b) == ItemCells(o, items[..n], b) + last;
    }
  }

  predicate Kept(h: Hold, b: nat) {
    h.batchId == b && h.status in {Active, Confirmed}
  }

  function KeptUnits(b: nat): Hold -> int {
    (h: Hold) => IfOf(Kept(h, b), h.quantity)
  }

  /** Every cell covered by a kept hold on batch `b`. */
  ghost function HeldCells(orders: seq<Order>, holds: seq<Hold>, b: nat): set<(nat, nat)>
    requires forall k :: 0 <= k < |holds| ==> holds[k].orderId < |orders|
  {
    if holds == [] then {}
    else
      var n := |holds| - 1;
      HeldCells(orders, holds[..n], b) +
      if Kept(holds[n], b) then ItemCells(holds[n].orderId, orders[holds[n].orderId].items, b) else {}
  }

  /** Every hold carries its order's units of its batch. */
  ghost predicate HoldsCarryUnits(orders: seq<Order>, holds: seq<Hold>) {
    forall k :: 0 <= k < |holds| ==>
      holds[k].orderId < |orders| && holds[k].quantity == Units(orders[holds[k].orderId].items, holds[k].batchId)
  }

  lemma HeldCellsPush(orders: seq<Order>, before: set<(nat, nat)>, h: Hold, b: nat)
    requires h.orderId < |orders| && h.quantity == Units(orders[h.orderId].items, h.batchId)
    ensures |before + if Kept(h, b) then ItemCells(h.orderId, orders[h.orderId].items, b) else {}|
      <= |before| + IfOf(Kept(h, b), h.quantity)
  {
    if Kept(h, b) {
      ItemCellsCount(h.orderId, orders[h.orderId].items, b);
      UnionAtMost(before, ItemCells(h.orderId, orders[h.orderId].items, b));
    } else {
      assert before + {} == before;
    }
  }

  lemma {:induction false} HeldCellsCount(orders: seq<Order>, holds: seq<Hold>, b: nat)
    requires HoldsCarryUnits(orders, holds)
    ensures |HeldCells(orders, holds, b)| <= Sum(holds, KeptUnits(b))
  {
    if holds != [] {
      var n := |holds| - 1;
      HeldCellsCount(orders, holds[..n], b);
      HeldCellsPush(orders, HeldCells(orders, holds[..n], b), holds[n], b);
    }
  }

  lemma {:induction false} HeldCellsMember(orders: seq<Order>, holds: seq<Hold>, b: nat, k: nat, cell: (nat, nat))
    requires forall j :: 0 <= j < |holds| ==> holds[j].orderId < |orders|
    requires k < |holds| && Kept(holds[k], b)
    requires cell in ItemCells(holds[k].orderId, orders[holds[k].orderId].items, b)
    ensures cell in HeldCells(orders, holds, b)
  {
    var n := |holds| - 1;
    if k < n {
      HeldCellsMember(orders, holds[..n], b, k, cell);
    }
  }

  ghost function TicketCells(orders: seq<Order>, tickets: seq<Ticket>, b: nat): set<(nat, nat)> {
    if tickets == [] then {}
    else
      var n := |tickets| - 1;
      TicketCells(orders, tickets[..n], b) +
      if IsTicketOf(orders, tickets[n], b) then {(tickets[n].orderId, tickets[n].item)} else {}
  }

  lemma {:induction false} TicketCellsMember(orders: seq<Order>, tickets: seq<Ticket>, b: nat, cell: (nat, nat)) returns (k: nat)
    requires cell in TicketCells(orders, tickets, b)
    ensures k < |tickets| && IsTicketOf(orders, tickets[k], b) && cell == (tickets[k].orderId, tickets[k].item)
  {
    var n := |tickets| - 1;
    if cell in TicketCells(orders, tickets[..n], b) {
      k := TicketCellsMember(orders, tickets[..n], b, cell);
    } else {
      k := n;
    }
  }

  predicate DistinctCells(tickets: seq<Ticket>) {
    forall j, k :: 0 <= j < k < |tickets| ==>
      tickets[j].orderId != tickets[k].orderId || tickets[j].item != tickets[k].item
  }

  lemma LastCellIsNew(orders: seq<Order>, tickets: seq<Ticket>, b: nat)
    requires tickets != [] && DistinctCells(tickets)
    ensures var n := |tickets| - 1; (tickets[n].orderId, tickets[n].item) !in TicketCells(orders, tickets[..n], b)
  {
    var n := |tickets| - 1;
    var cell := (tickets[n].orderId, tickets[n].item);
    if cell in TicketCells(orders, tickets[..n], b) {
      var k := TicketCellsMember(orders, tickets[..n], b, cell);
      assert false;
    }
  }

  lemma {:induction false} TicketCellsCount(orders: seq<Order>, tickets: seq<Ticket>, b: nat)
    requires DistinctCells(tickets)
    ensures |TicketCells(orders, tickets, b)| == Sum(tickets, IsBatchTicket(orders, b))
  {
    if tickets != [] {
      TicketCellsCount(orders, tickets[..|tickets| - 1], b);
      LastCellIsNew(orders, tickets, b);
    }
  }

  lemma TicketCellsAreHeld(db: Db, b: nat)
    requires HoldsAgree(db) && UnitsHeld(db) && TicketsAgree(db) && HoldsCarryUnits(db.orders, db.holds)
    ensures |TicketCells(db.orders, db.tickets, b)| <= |HeldCells(db.orders, db.holds, b)|
  {
    forall c | c in TicketCells(db.orders, db.tickets, b) ensures c in HeldCells(db.orders, db.holds, b) {
      TicketCellHeld(db, b, c);
    }
    SubsetSize(TicketCells(db.orders, db.tickets, b), HeldCells(db.orders, db.holds, b));
  }

  lemma AgreeingHoldsCarryUnits(db: Db)
    requires HoldsAgree(db)
    ensures HoldsCarryUnits(db.orders, db.holds)
  {
    forall k | 0 <= k < |db.holds|
      ensures db.holds[k].orderId < |db.orders|
      ensures db.holds[k].quantity == Units(db.orders[db.holds[k].orderId].items, db.holds[k].batchId)
    {
      assert HoldAgrees(db, db.holds[k]);
    }
  }

  lemma KeptIsCommitted(holds: seq<Hold>, b: nat)
    ensures Sum(holds, KeptUnits(b)) == Sum(holds, HeldIn(b, Active)) + Sum(holds, HeldIn(b, Confirmed))
  {
    SumSplit(holds, KeptUnits(b), HeldIn(b, Active), HeldIn(b, Confirmed));
  }

  /**
   * No oversell: the tickets ever issued for a batch fit its committed units, which fit
   * its quantity. Issuing does not look at the counters; the bound comes from the holds.
   */
  lemma TicketsWithinCommitted(db: Db, b: nat)
    requires Inv(db) && b < |db.batches|
    ensures IssuedFor(db, b) <= Committed(db.batches[b]) <= db.batches[b].total
  {
    AgreeingHoldsCarryUnits(db);
    TicketCellsCount(db.orders, db.tickets, b);
    TicketCellsAreHeld(db, b);
    HeldCellsCount(db.orders, db.holds, b);
    KeptIsCommitted(db.holds, b);
  }

  lemma TicketCellHeld(db: Db, b: nat, c: (nat, nat))
    requires HoldsAgree(db) && UnitsHeld(db) && TicketsAgree(db)
    requires c in TicketCells(db.orders, db.tickets, b)
    requires forall j :: 0 <= j < |db.holds| ==> db.holds[j].orderId < |db.orders|
    ensures c in HeldCells(db.orders, db.holds, b)
  {
    var k := TicketCellsMember(db.orders, db.tickets, b, c);
    assert TicketAgrees(db, db.tickets[k]);
    assert Held(db, c.0, db.orders[c.0].items[c.1].batchId);
    var h :| 0 <= h < |db.holds| && db.holds[h].orderId == c.0 && db.holds[h].batchId == b;
    assert HoldAgrees(db, db.holds[h]);
    HeldCellsMember(db.orders, db.holds, b, h, c);
  }
}
