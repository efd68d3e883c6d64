/** Ledger calls that nothing interrupts do what the service's functions do. */
module FinanceRefinement {
  import opened Base
  import opened Ledger
  import opened LedgerProofs
  import opened FinanceProtocol
  import opened FinanceRuns
  import opened FinanceGuarantees
  import P = Pricing
  import S = SalesModel

  // ----- Posting ----------------------------------------------------------------------------

  /** A posting that runs from start to end without interruption. */
  function PostCall(s: Books, pid: nat, o: nat): Books {
    Next(Next(Next(s, StartPost(pid, o)), Step(pid)), Step(pid))
  }

  lemma PostSteps(s: Books, pid: nat, o: nat)
    requires pid in s.jobs && s.jobs[pid] == ReadingCommission(o) && o < |s.orders|
    ensures Next(Next(s, Step(pid)), Step(pid)) == Finish(s.(entries := PostAll(s.entries, Posting(o, s.orders[o]))), pid)
  {
    var s2 := Next(s, Step(pid));
    assert s2 == Begin(s, pid, Writing(o, Posting(o, s.orders[o])));
    assert Finish(s2, pid).jobs == Finish(s, pid).jobs;
  }

  lemma PostStarts(s: Books, pid: nat, o: nat)
    requires pid !in s.jobs
    ensures Next(s, StartPost(pid, o)) == if StatusIs(s, o, S.Paid) then Begin(s, pid, ReadingCommission(o)) else s
    ensures Next(s, Step(pid)) == s
  {
  }

  lemma PaidOrderPosts(s: Books, pid: nat, o: nat)
    requires pid !in s.jobs && StatusIs(s, o, S.Paid)
    ensures PostCall(s, pid, o) == s.(entries := PostAll(s.entries, Posting(o, s.orders[o])))
  {
    var s1 := Begin(s, pid, ReadingCommission(o));
    PostStarts(s, pid, o);
    PostSteps(s1, pid, o);
    assert s1.jobs - {pid} == s.jobs;
  }

  /** Uninterrupted, a posting is the service's posting of a PAID order, and of any other order nothing at all. */
  lemma PostCallIsPosting(s: Books, pid: nat, o: nat)
    requires pid !in s.jobs
    ensures PostCall(s, pid, o) == s.(entries := PostForPaidOrder(s.orders, s.entries, o))
  {
    if StatusIs(s, o, S.Paid) {
      PaidOrderPosts(s, pid, o);
    } else {
      PostStarts(s, pid, o);
    }
  }

  /** What a posting makes of its order's rows. */
  lemma PostedRows(o: nat, f: OrderFacts, rows: seq<Entry>)
    ensures AllStored(PostAll(rows, Posting(o, f)), Posting(o, f))
    ensures rows == [] ==> PostAll(rows, Posting(o, f)) == Posting(o, f)
    ensures AllStored(rows, Posting(o, f)) ==> PostAll(rows, Posting(o, f)) == rows
  {
    PostingShape(o, f);
    PostGrows(rows, Posting(o, f));
    if rows == [] {
      PostFresh([], Posting(o, f));
    }
    if AllStored(rows, Posting(o, f)) {
      PostStored(rows, Posting(o, f));
    }
  }

  lemma PostCallRows(s: Books, pid: nat, o: nat, other: nat)
    requires pid !in s.jobs && StatusIs(s, o, S.Paid)
    ensures var t := PostCall(s, pid, o);
      && t.orders == s.orders && t.jobs == s.jobs
      && RowsOf(t, other) == if other == o then PostAll(RowsOf(s, o), Posting(o, s.orders[o])) else RowsOf(s, other)
  {
    PaidOrderPosts(s, pid, o);
    PostingShape(o, s.orders[o]);
    PostByOrder(s.entries, Posting(o, s.orders[o]), o, other);
  }

  /**
   * From any reachable state, an uninterrupted posting of an order never posted before leaves exactly the
   * order's posting as its rows; of one posted already nothing is written twice; and other orders' rows stay.
   */
  lemma UninterruptedPostPosts(actions: seq<Action>, pid: nat, o: nat, other: nat)
    requires var s := Exec(actions); pid !in s.jobs && StatusIs(s, o, S.Paid)
    ensures var s, t := Exec(actions), PostCall(Exec(actions), pid, o);
      && t.orders == s.orders && t.jobs == s.jobs
      && AllStored(RowsOf(t, o), Posting(o, s.orders[o]))
      && (RowsOf(s, o) == [] ==> RowsOf(t, o) == Posting(o, s.orders[o]))
      && (AllStored(RowsOf(s, o), Posting(o, s.orders[o])) ==> RowsOf(t, o) == RowsOf(s, o))
      && (other != o ==> RowsOf(t, other) == RowsOf(s, other))
  {
    var s := Exec(actions);
    PostCallRows(s, pid, o, o);
    PostCallRows(s, pid, o, other);
    PostedRows(o, s.orders[o], RowsOf(s, o));
  }

  // ----- Accruing -----------------------------------------------------------------------------

  function AccrueCall(s: Books, pid: nat, o: nat, accrual: Accrual): Books {
    Next(Next(s, StartAccrual(pid, o, accrual)), Step(pid))
  }

  /** A PAID order takes the first positive accrual it is given, and only that one. */
  lemma AccrueCallExact(s: Books, pid: nat, o: nat, accrual: Accrual)
    requires pid !in s.jobs
    ensures AccrueCall(s, pid, o, accrual)
      == if StatusIs(s, o, S.Paid) && accrual.amount > 0 && s.orders[o].accrued.None?
         then s.(orders := s.orders[o := s.orders[o].(accrued := Some(accrual))]) else s
  {
    if StatusIs(s, o, S.Paid) && accrual.amount > 0 {
      var s1 := Begin(s, pid, Accruing(o, accrual));
      assert Next(s, StartAccrual(pid, o, accrual)) == s1;
      assert Finish(s1, pid) == s;
    }
  }

  // ----- Payouts ----------------------------------------------------------------------------------

  function PayoutCall(s: Books, id: nat, e: nat, p: nat, amount: int): Books {
    Next(Next(s, PayPromoter(id, e, p, amount)), WritePayout(id))
  }

  /** Uninterrupted, a payout is the service's: nothing for zero or more than is owed, else one negative entry. */
  lemma PayoutCallExact(s: Books, id: nat, e: nat, p: nat, amount: int)
    requires id !in s.payouts
    ensures var cents := if amount < 0 then -amount else amount; var t := PayoutCall(s, id, e, p, amount);
      && t == s.(entries := t.entries)
      && RegisterPromoterPayout(s.entries, e, p, amount) == (if t.entries == s.entries then None else Some(t.entries))
      && t.entries == if 0 < cents <= Owed(s.entries, e, p)
                      then s.entries + [Entry(e, None, PromoterAccount, Payout, -cents, Some(p))] else s.entries
    ensures Next(Next(s, PayPromoter(id, e, p, amount)), DropPayout(id)) == s
  {
    assert s.payouts - {id} == s.payouts;
    if 0 < Abs(amount) <= Owed(s.entries, e, p) {
      var s1 := s.(payouts := s.payouts[id := Pending(e, p, Abs(amount))]);
      assert Next(s, PayPromoter(id, e, p, amount)) == s1;
      assert s1.payouts - {id} == s.payouts;
    }
  }

  /** A producer payout writes one entry of minus the amount, whatever its sign was. */
  lemma ProducerPayoutExact(s: Books, e: nat, amount: int)
    ensures Next(s, PayProducer(e, amount))
      == s.(entries := s.entries + [Entry(e, None, ProducerAccount, Payout, if amount < 0 then amount else -amount, None)])
  {
  }

  // ----- The order table ----------------------------------------------------------------------------

  /** Payment and expiry take an order from AWAITING_PAYMENT, a refund takes a paid one to its end state. */
  lemma OrderCallsExact(s: Books, pid: nat, o: nat, chargeback: bool)
    requires o < |s.orders|
    ensures var f := s.orders[o];
      && Next(s, MarkPaid(o)) == s.(orders := s.orders[o := if f.status == S.AwaitingPayment then f.(status := S.Paid) else f])
      && Next(s, Expire(o)) == s.(orders := s.orders[o := if f.status == S.AwaitingPayment then f.(status := S.OrderExpired) else f])
      && Next(s, StartRefund(pid, o, chargeback)).orders
         == s.orders[o := if pid !in s.jobs && f.status in {S.Paid, S.PartiallyRefunded}
                          then f.(status := if chargeback then S.Chargeback else S.Refunded) else f]
  {
    assert s.orders[o := s.orders[o]] == s.orders;
  }

  /** An order is placed with amounts that fit together, unpaid and without an accrual. */
  lemma PlaceOrderExact(s: Books, f: OrderFacts)
    ensures Next(s, PlaceOrder(f)) ==
      if f.total == f.subtotal - f.discount + (if f.feeMode == P.Buyer then f.fee else 0)
        && f.status == S.AwaitingPayment && f.accrued == None
      then s.(orders := s.orders + [f]) else s
  {
  }
}
