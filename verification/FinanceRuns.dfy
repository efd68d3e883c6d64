/** What every interleaving of accruals, postings, refunds, payouts and crashes keeps. */
module FinanceRuns {
  import opened Base
  import opened Ledger
  import opened LedgerProofs
  import opened FinanceProtocol
  import S = SalesModel

  predicate Ended(status: S.OrderStatus) {
    status == S.Refunded || status == S.Chargeback
  }

  predicate WasPaid(status: S.OrderStatus) {
    status == S.Paid || Ended(status)
  }

  /** A payout has no order and a named payee; every other entry belongs to one and names its accrued promoter. */
  predicate EntryOk(orders: seq<OrderFacts>, x: Entry) {
    match x.orderId
    case None =>
      && x.kind == Payout && x.amount <= 0
      && (x.account == ProducerAccount || (x.account == PromoterAccount && x.promoterId.Some?))
    case Some(o) =>
      && o < |orders| && x.eventId == orders[o].eventId && x.kind != Payout
      && (x.account == PromoterAccount ==>
            && orders[o].accrued.Some? && x.promoterId == Some(orders[o].accrued.value.promoterId)
            && ((x.kind == Commission && x.amount > 0) || (x.kind == Refund && x.amount <= 0)))
  }

  predicate OrderOk(o: nat, f: OrderFacts, rows: seq<Entry>) {
    && AmountsAgree(f)
    && (Only(rows, false) == [] || Only(rows, false) == BasePosting(o, f) || Only(rows, false) == Posting(o, f))
    && (rows != [] ==> Only(rows, false) != [])
    && (rows != [] || f.accrued.Some? ==> WasPaid(f.status))
    && (f.accrued.Some? ==> f.accrued.value.amount > 0)
    && f.status != S.PartiallyRefunded
  }

  predicate PostBatch(o: nat, f: OrderFacts, batch: seq<Entry>) {
    WasPaid(f.status) && (batch == BasePosting(o, f) || batch == Posting(o, f))
  }

  predicate RefundBatch(orders: seq<OrderFacts>, entries: seq<Entry>, o: nat, batch: seq<Entry>) {
    && OfOrder(batch, o) && Uniform(batch, true) && DistinctKeys(batch)
    && (batch != [] ==> Rows(entries, o) != [])
    && (forall k :: 0 <= k < |batch| ==> batch[k].amount != 0 && EntryOk(orders, batch[k]))
  }

  predicate JobOk(orders: seq<OrderFacts>, entries: seq<Entry>, job: Job) {
    && job.order < |orders|
    && match job
       case Accruing(o, a) => WasPaid(orders[o].status) && a.amount > 0
       case ReadingCommission(o) => WasPaid(orders[o].status)
       case ReadingRows(o) => true
       case Writing(o, batch) => PostBatch(o, orders[o], batch) || RefundBatch(orders, entries, o, batch)
  }

  predicate EntriesOk(orders: seq<OrderFacts>, entries: seq<Entry>) {
    forall k :: 0 <= k < |entries| ==> EntryOk(orders, entries[k])
  }

  predicate OrdersOk(orders: seq<OrderFacts>, entries: seq<Entry>) {
    forall o: nat :: o < |orders| ==> OrderOk(o, orders[o], Rows(entries, o))
  }

  predicate JobsOk(orders: seq<OrderFacts>, entries: seq<Entry>, jobs: map<nat, Job>) {
    forall pid :: pid in jobs ==> JobOk(orders, entries, jobs[pid])
  }

  predicate Inv(s: Books) {
    EntriesOk(s.orders, s.entries) && OrdersOk(s.orders, s.entries) && JobsOk(s.orders, s.entries, s.jobs)
  }

  // ----- The order table moves forward --------------------------------------------------------

  /** Amounts never change, a paid order stays paid or ends, and an accrual is final. */
  predicate Moves(f: OrderFacts, g: OrderFacts) {
    && g == f.(status := g.status, accrued := g.accrued)
    && (WasPaid(f.status) ==> WasPaid(g.status))
    && (f.accrued.Some? ==> g.accrued == f.accrued)
    && (g.accrued.Some? ==> WasPaid(g.status) && g.accrued.value.amount > 0)
    && g.status != S.PartiallyRefunded
  }

  predicate Forward(before: seq<OrderFacts>, after: seq<OrderFacts>) {
    && |before| <= |after|
    && (forall o :: 0 <= o < |before| ==> Moves(before[o], after[o]))
    && (forall o :: |before| <= o < |after| ==>
          AmountsAgree(after[o]) && after[o].accrued.None? && after[o].status == S.AwaitingPayment)
  }

  lemma MovesKeepsOrder(o: nat, f: OrderFacts, g: OrderFacts, rows: seq<Entry>)
    requires OrderOk(o, f, rows) && Moves(f, g)
    ensures OrderOk(o, g, rows)
    ensures BasePosting(o, g) == BasePosting(o, f)
    ensures Posting(o, f) == Posting(o, g) || Posting(o, f) == BasePosting(o, g)
  {
    assert BasePosting(o, g) == BasePosting(o, f);
    if f.accrued.None? {
      assert Posting(o, f) == BasePosting(o, f);
    } else {
      assert CommissionPair(o, g) == CommissionPair(o, f);
    }
  }

  lemma {:induction false} NoRowsBeyond(orders: seq<OrderFacts>, entries: seq<Entry>, o: nat)
    requires forall k :: 0 <= k < |entries| ==> EntryOk(orders, entries[k])
    requires |orders| <= o
    ensures Rows(entries, o) == []
    decreases entries
  {
    if entries != [] {
      NoRowsBeyond(orders, entries[..|entries| - 1], o);
    }
  }

  lemma ForwardKeeps(s: Books, after: seq<OrderFacts>)
    requires Inv(s) && Forward(s.orders, after)
    ensures Inv(s.(orders := after))
  {
    var t := s.(orders := after);
    forall k | 0 <= k < |t.entries| ensures EntryOk(after, t.entries[k]) {
      assert EntryOk(s.orders, s.entries[k]);
    }
    forall o: nat | o < |after| ensures OrderOk(o, after[o], Rows(s.entries, o)) {
      if o < |s.orders| {
        MovesKeepsOrder(o, s.orders[o], after[o], Rows(s.entries, o));
      } else {
        NoRowsBeyond(s.orders, s.entries, o);
      }
    }
    forall pid | pid in t.jobs ensures JobOk(t.orders, t.entries, t.jobs[pid]) {
      var job := s.jobs[pid];
      assert JobOk(s.orders, s.entries, job);
      MovesKeepsOrder(job.order, s.orders[job.order], after[job.order], Rows(s.entries, job.order));
      if job.Writing? && RefundBatch(s.orders, s.entries, job.order, job.batch) {
        assert RefundBatch(t.orders, t.entries, job.order, job.batch);
      }
    }
  }

  lemma OneOrderMoves(s: Books, o: nat, g: OrderFacts)
    requires Inv(s) && o < |s.orders| && Moves(s.orders[o], g)
    ensures Inv(s.(orders := s.orders[o := g]))
  {
    var after := s.orders[o := g];
    forall i | 0 <= i < |s.orders| ensures Moves(s.orders[i], after[i]) {
      assert OrderOk(i, s.orders[i], Rows(s.entries, i));
    }
    ForwardKeeps(s, after);
  }

  // ----- The ledger grows --------------------------------------------------------------------------

  lemma BaseEntriesOk(orders: seq<OrderFacts>, o: nat)
    requires o < |orders|
    ensures forall x :: x in BasePosting(o, orders[o]) ==> EntryOk(orders, x) && x.kind != Refund
  {
  }

  lemma PostingEntriesOk(orders: seq<OrderFacts>, o: nat)
    requires o < |orders|
    ensures forall x :: x in BasePosting(o, orders[o]) ==> EntryOk(orders, x) && x.kind != Refund
    ensures forall x :: x in Posting(o, orders[o]) ==> EntryOk(orders, x) && x.kind != Refund
  {
    BaseEntriesOk(orders, o);
    forall x | x in CommissionPair(o, orders[o]) ensures EntryOk(orders, x) && x.kind != Refund {
    }
    forall x | x in Posting(o, orders[o]) ensures EntryOk(orders, x) && x.kind != Refund {
      assert x in BasePosting(o, orders[o]) || x in CommissionPair(o, orders[o]);
    }
  }

  lemma BatchEntriesOk(s: Books, o: nat, batch: seq<Entry>)
    requires Inv(s) && JobOk(s.orders, s.entries, Writing(o, batch))
    ensures OfOrder(batch, o)
    ensures forall x :: x in batch ==> EntryOk(s.orders, x)
  {
    PostingShape(o, s.orders[o]);
    PostingEntriesOk(s.orders, o);
  }

  /** What a posting finds stored and what it adds. */
  lemma PostBatchEffect(o: nat, f: OrderFacts, stored: seq<Entry>, batch: seq<Entry>)
    requires stored == [] || stored == BasePosting(o, f) || stored == Posting(o, f)
    requires batch == BasePosting(o, f) || batch == Posting(o, f)
    ensures PostAll(stored, batch)
         == if stored == [] then batch
            else if stored == BasePosting(o, f) && batch == Posting(o, f) then Posting(o, f)
            else stored
  {
    var base, pair := BasePosting(o, f), CommissionPair(o, f);
    PostingShape(o, f);
    if stored == [] {
      PostFresh([], batch);
    } else {
      AllStoredIn(base, pair);
      PostStored(stored, base);
      if batch == Posting(o, f) {
        PostConcat(stored, base, pair);
        if stored == base {
          PostFresh(base, pair);
        } else {
          PostStored(stored, pair);
        }
      }
    }
  }

  /** A row's own key is stored. */
  lemma AllStoredIn(a: seq<Entry>, b: seq<Entry>)
    requires forall k :: 0 <= k < |a| ==> a[k].orderId.Some?
    requires forall k :: 0 <= k < |b| ==> b[k].orderId.Some?
    ensures AllStored(a, a) && AllStored(a + b, a) && AllStored(a + b, b)
  {
    forall k | 0 <= k < |a| ensures Clashes(a, a[k]) && Clashes(a + b, a[k]) {
      assert SameKey(a[k], a[k]);
      ClashesConcat(a, b, a[k]);
    }
    forall k | 0 <= k < |b| ensures Clashes(a + b, b[k]) {
      assert SameKey(b[k], b[k]);
      ClashesConcat(a, b, b[k]);
    }
  }

  lemma WriteKeepsOrder(s: Books, o: nat, batch: seq<Entry>)
    requires Inv(s) && JobOk(s.orders, s.entries, Writing(o, batch))
    ensures OrderOk(o, s.orders[o], PostAll(Rows(s.entries, o), batch))
  {
    var f, rows := s.orders[o], Rows(s.entries, o);
    assert OrderOk(o, f, rows);
    PostingShape(o, f);
    if PostBatch(o, f, batch) {
      OnlyPost(rows, batch, false);
      PostBatchEffect(o, f, Only(rows, false), batch);
    } else {
      OnlyPost(rows, batch, true);
    }
  }

  lemma WriteKeepsEntries(s: Books, o: nat, batch: seq<Entry>)
    requires Inv(s) && JobOk(s.orders, s.entries, Writing(o, batch))
    ensures EntriesOk(s.orders, PostAll(s.entries, batch))
  {
    BatchEntriesOk(s, o, batch);
    PostGrows(s.entries, batch);
    var out := PostAll(s.entries, batch);
    forall k | 0 <= k < |out| ensures EntryOk(s.orders, out[k]) {
      if k < |s.entries| {
        assert out[k] == s.entries[k];
      } else {
        assert out[k] in batch;
      }
    }
  }

  lemma RowsStay(s: Books, o: nat, batch: seq<Entry>, i: nat)
    requires OfOrder(batch, o) && Rows(s.entries, i) != []
    ensures Rows(PostAll(s.entries, batch), i) != []
  {
    PostByOrder(s.entries, batch, o, i);
    PostGrows(Rows(s.entries, o), batch);
  }

  lemma WriteKeeps(s: Books, o: nat, batch: seq<Entry>)
    requires Inv(s) && JobOk(s.orders, s.entries, Writing(o, batch))
    ensures Inv(s.(entries := PostAll(s.entries, batch)))
  {
    var t := s.(entries := PostAll(s.entries, batch));
    BatchEntriesOk(s, o, batch);
    WriteKeepsEntries(s, o, batch);
    forall i: nat | i < |t.orders| ensures OrderOk(i, t.orders[i], Rows(t.entries, i)) {
      PostByOrder(s.entries, batch, o, i);
      if i == o {
        WriteKeepsOrder(s, o, batch);
      }
    }
    forall i: nat | Rows(s.entries, i) != [] ensures Rows(t.entries, i) != [] {
      RowsStay(s, o, batch, i);
    }
    JobsKept(s, t, o);
  }

  lemma JobsKept(s: Books, t: Books, o: nat)
    requires Inv(s) && t.orders == s.orders && t.jobs == s.jobs
    requires forall i: nat :: Rows(s.entries, i) != [] ==> Rows(t.entries, i) != []
    ensures forall pid :: pid in t.jobs ==> JobOk(t.orders, t.entries, t.jobs[pid])
  {
    forall pid | pid in t.jobs ensures JobOk(t.orders, t.entries, t.jobs[pid]) {
      assert JobOk(s.orders, s.entries, s.jobs[pid]);
    }
  }

  lemma PayoutKeeps(s: Books, x: Entry)
    requires Inv(s) && x.orderId == None && EntryOk(s.orders, x)
    ensures Inv(s.(entries := s.entries + [x]))
  {
    var t := s.(entries := s.entries + [x]);
    forall o: nat ensures Rows(t.entries, o) == Rows(s.entries, o) {
      RowsPush(s.entries, x, o);
    }
    JobsKept(s, t, 0);
  }

  // ----- A reversal's batch --------------------------------------------------------------------------

  /** All promoter rows of one order name one promoter. */
  lemma OrderHasOnePromoter(s: Books, o: nat) returns (only: nat)
    requires Inv(s) && o < |s.orders|
    ensures OnePromoter(Rows(s.entries, o), only)
    ensures s.orders[o].accrued.Some? ==> only == s.orders[o].accrued.value.promoterId
    ensures forall k :: 0 <= k < |Rows(s.entries, o)| ==> EntryOk(s.orders, Rows(s.entries, o)[k])
  {
    RowsOfOrder(s.entries, o);
    only := if s.orders[o].accrued.Some? then s.orders[o].accrued.value.promoterId else 0;
    var rows := Rows(s.entries, o);
    forall k | 0 <= k < |rows| ensures EntryOk(s.orders, rows[k]) {
      assert rows[k] in s.entries;
    }
  }

  /** A promoter account is only ever credited before the reversal, and only of an accrued order. */
  lemma PromoterBalance(s: Books, o: nat, only: nat)
    requires EntriesOk(s.orders, Rows(s.entries, o)) && !HasRefund(Rows(s.entries, o))
    requires OnePromoter(Rows(s.entries, o), only) && OfOrder(Rows(s.entries, o), o)
    requires PromoterAccount in Accounts(Rows(s.entries, o))
    ensures Balance(Rows(s.entries, o), PromoterAccount) >= 0
    ensures o < |s.orders| && s.orders[o].accrued.Some?
  {
    var rows := Rows(s.entries, o);
    forall i | 0 <= i < |rows| ensures InAccount(PromoterAccount)(rows[i]) >= 0 {
      assert EntryOk(s.orders, rows[i]) && rows[i].kind != Refund;
    }
    SumNonNegative(rows, InAccount(PromoterAccount));
    AccountsExact(rows);
    var i :| 0 <= i < |rows| && rows[i].account == PromoterAccount;
    assert EntryOk(s.orders, rows[i]);
  }

  lemma ReversalIsRefundBatch(s: Books, o: nat)
    requires Inv(s) && o < |s.orders|
    ensures RefundBatch(s.orders, s.entries, o, Reversal(Rows(s.entries, o)))
  {
    var rows := Rows(s.entries, o);
    if rows != [] && !HasRefund(rows) {
      var only := OrderHasOnePromoter(s, o);
      RowsOfOrder(s.entries, o);
      AccountsExact(rows);
      ReversalOfShape(rows, Accounts(rows));
      var batch := Reversal(rows);
      forall k | 0 <= k < |batch| ensures EntryOk(s.orders, batch[k]) {
        assert EntryOk(s.orders, rows[0]);
        if batch[k].account == PromoterAccount {
          PromoterBalance(s, o, only);
          OnePromoterBalance(rows, only, only);
        }
      }
    }
  }

  // ----- Every step --------------------------------------------------------------------------------------

  lemma FinishKeeps(s: Books, pid: nat)
    requires Inv(s)
    ensures Inv(Finish(s, pid))
  {
  }

  lemma BeginKeeps(s: Books, pid: nat, job: Job)
    requires Inv(s) && JobOk(s.orders, s.entries, job)
    ensures Inv(Begin(s, pid, job))
  {
    var t := Begin(s, pid, job);
    forall p | p in t.jobs ensures JobOk(t.orders, t.entries, t.jobs[p]) {
      assert p != pid ==> JobOk(s.orders, s.entries, s.jobs[p]);
    }
  }

  lemma WorkKeeps(s: Books, pid: nat)
    requires Inv(s) && pid in s.jobs
    ensures Inv(Work(s, pid))
  {
    assert JobOk(s.orders, s.entries, s.jobs[pid]);
    match s.jobs[pid]
    case Accruing(o, a) =>
      if s.orders[o].accrued.None? {
        assert OrderOk(o, s.orders[o], Rows(s.entries, o));
        OneOrderMoves(s, o, s.orders[o].(accrued := Some(a)));
        FinishKeeps(s.(orders := s.orders[o := s.orders[o].(accrued := Some(a))]), pid);
      } else {
        FinishKeeps(s, pid);
      }
    case ReadingCommission(o) =>
      BeginKeeps(s, pid, Writing(o, Posting(o, s.orders[o])));
    case ReadingRows(o) =>
      ReversalIsRefundBatch(s, o);
      BeginKeeps(s, pid, Writing(o, Reversal(Rows(s.entries, o))));
    case Writing(o, batch) =>
      WriteKeeps(s, o, batch);
      FinishKeeps(s.(entries := PostAll(s.entries, batch)), pid);
  }

  lemma StatusKeeps(s: Books, o: nat, status: S.OrderStatus)
    requires Inv(s) && o < |s.orders| && status != S.PartiallyRefunded
    requires WasPaid(s.orders[o].status) ==> WasPaid(status)
    ensures Inv(WithStatus(s, o, status))
  {
    assert OrderOk(o, s.orders[o], Rows(s.entries, o));
    OneOrderMoves(s, o, s.orders[o].(status := status));
  }

  lemma PlacedOrderMovesNothing(orders: seq<OrderFacts>, entries: seq<Entry>, f: OrderFacts)
    requires OrdersOk(orders, entries)
    requires AmountsAgree(f) && f.status == S.AwaitingPayment && f.accrued.None?
    ensures Forward(orders, orders + [f])
  {
    forall i | 0 <= i < |orders| ensures Moves(orders[i], (orders + [f])[i]) {
      assert OrderOk(i, orders[i], Rows(entries, i));
    }
  }

  lemma PlaceOrderKeeps(s: Books, f: OrderFacts)
    requires Inv(s) && AmountsAgree(f) && f.status == S.AwaitingPayment && f.accrued.None?
    ensures Inv(s.(orders := s.orders + [f]))
  {
    PlacedOrderMovesNothing(s.orders, s.entries, f);
    ForwardKeeps(s, s.orders + [f]);
  }

  lemma OrderActionKeeps(s: Books, a: Action)
    requires Inv(s) && (a.PlaceOrder? || a.MarkPaid? || a.Expire?)
    ensures Inv(Next(s, a))
  {
    if a.PlaceOrder? {
      if AmountsAgree(a.facts) && a.facts.status == S.AwaitingPayment && a.facts.accrued.None? {
        PlaceOrderKeeps(s, a.facts);
      }
    } else if StatusIs(s, a.order, S.AwaitingPayment) {
      StatusKeeps(s, a.order, if a.MarkPaid? then S.Paid else S.OrderExpired);
    }
  }

  lemma SettleKeeps(s: Books, o: nat, chargeback: bool)
    requires Inv(s) && o < |s.orders|
    ensures Inv(Settle(s, o, chargeback)) && |Settle(s, o, chargeback).orders| == |s.orders|
  {
    if StatusIs(s, o, S.Paid) || StatusIs(s, o, S.PartiallyRefunded) {
      StatusKeeps(s, o, if chargeback then S.Chargeback else S.Refunded);
    }
  }

  lemma StartIsBegin(s: Books, a: Action)
    requires a.StartAccrual? || a.StartPost?
    ensures var paid := StatusIs(s, a.order, S.Paid) && (a.StartAccrual? ==> a.accrual.amount > 0);
      Next(s, a) == if a.pid !in s.jobs && paid
        then Begin(s, a.pid, if a.StartPost? then ReadingCommission(a.order) else Accruing(a.order, a.accrual)) else s
  {
  }

  lemma StartAccrualKeeps(s: Books, pid: nat, o: nat, accrual: Accrual)
    requires Inv(s)
    ensures Inv(Next(s, StartAccrual(pid, o, accrual)))
  {
    StartIsBegin(s, StartAccrual(pid, o, accrual));
    if pid !in s.jobs && StatusIs(s, o, S.Paid) && accrual.amount > 0 {
      BeginKeeps(s, pid, Accruing(o, accrual));
    }
  }

  lemma StartPostKeeps(s: Books, pid: nat, o: nat)
    requires Inv(s)
    ensures Inv(Next(s, StartPost(pid, o)))
  {
    StartIsBegin(s, StartPost(pid, o));
    if pid !in s.jobs && StatusIs(s, o, S.Paid) {
      BeginKeeps(s, pid, ReadingCommission(o));
    }
  }

  lemma RefundIsBegin(s: Books, pid: nat, o: nat, chargeback: bool)
    ensures Next(s, StartRefund(pid, o, chargeback))
      == if pid !in s.jobs && o < |s.orders| then Begin(Settle(s, o, chargeback), pid, ReadingRows(o)) else s
  {
  }

  lemma StartRefundKeeps(s: Books, pid: nat, o: nat, chargeback: bool)
    requires Inv(s)
    ensures Inv(Next(s, StartRefund(pid, o, chargeback)))
  {
    RefundIsBegin(s, pid, o, chargeback);
    if pid !in s.jobs && o < |s.orders| {
      SettleKeeps(s, o, chargeback);
      BeginKeeps(Settle(s, o, chargeback), pid, ReadingRows(o));
    }
  }

  /** A step of a call in flight is the call's next statement. */
  lemma StepIsWork(s: Books, pid: nat)
    ensures Next(s, Step(pid)) == if pid in s.jobs then Work(s, pid) else s
  {
  }

  /** A payout appends one entry without an order, or nothing. */
  lemma PayAppends(s: Books, a: Action) returns (x: Entry)
    requires IsPay(a)
    ensures x.orderId == None && EntryOk(s.orders, x)
    ensures Next(s, a).orders == s.orders && Next(s, a).jobs == s.jobs
    ensures Next(s, a).entries == s.entries || Next(s, a).entries == s.entries + [x]
  {
    x := if a.PayProducer? then Entry(a.event, None, ProducerAccount, Payout, 0 - Abs(a.amount), None)
         else if a.WritePayout? && a.payId in s.payouts
         then PromoterPayout(s.payouts[a.payId].event, s.payouts[a.payId].promoter, s.payouts[a.payId].amount)
         else PromoterPayout(0, 0, 0);
  }

  lemma PayKeeps(s: Books, a: Action)
    requires Inv(s) && IsPay(a)
    ensures Inv(Next(s, a))
  {
    var x := PayAppends(s, a);
    PayoutKeeps(s, x);
  }

  lemma NextKeeps(s: Books, a: Action)
    requires Inv(s)
    ensures Inv(Next(s, a))
  {
    match a {
      case PlaceOrder(_) => OrderActionKeeps(s, a);
      case MarkPaid(_) => OrderActionKeeps(s, a);
      case Expire(_) => OrderActionKeeps(s, a);
      case StartAccrual(pid, o, accrual) => StartAccrualKeeps(s, pid, o, accrual);
      case StartPost(pid, o) => StartPostKeeps(s, pid, o);
      case StartRefund(pid, o, chargeback) => StartRefundKeeps(s, pid, o, chargeback);
      case Step(pid) =>
        StepIsWork(s, pid);
        if pid in s.jobs {
          WorkKeeps(s, pid);
        }
      case Crash(pid) => FinishKeeps(s, pid);
      case _ => PayKeeps(s, a);
    }
  }

  lemma {:induction false} RunsKeep(s: Books, actions: seq<Action>)
    requires Inv(s)
    ensures Inv(ExecFrom(s, actions))
    decreases actions
  {
    if actions != [] {
      RunsKeep(s, actions[..|actions| - 1]);
      NextKeeps(ExecFrom(s, actions[..|actions| - 1]), actions[|actions| - 1]);
    }
  }

  lemma EveryRunKeeps(actions: seq<Action>)
    ensures Inv(Exec(actions))
  {
    RunsKeep(Init, actions);
  }
}
