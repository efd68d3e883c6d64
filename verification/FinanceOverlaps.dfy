/** Refund calls of one order that do not overlap, and two that do. */
module FinanceOverlaps {
  import opened Base
  import opened Ledger
  import opened LedgerProofs
  import opened FinanceProtocol
  import opened FinanceRuns
  import opened FinanceGuarantees
  import opened FinanceRefunds
  import opened FinanceReconciliation
  import S = SalesModel

  // ----- Refunds that do not overlap -------------------------------------------------------------

  /** The reversal about to be written is the order's first. */
  predicate FirstReversal(s: Books, job: Job) {
    IsRefundWrite(job) ==> !HasRefund(RowsOf(s, job.order))
  }

  ghost predicate OneRefundEach(jobs: map<nat, Job>) {
    forall p, q, o: nat :: p in jobs && q in jobs && IsRefundOf(jobs[p], o) && IsRefundOf(jobs[q], o) ==> p == q
  }

  ghost predicate ApartInv(s: Books) {
    RunInv(s) && OneRefundEach(s.jobs) && forall pid :: pid in s.jobs ==> FirstReversal(s, s.jobs[pid])
  }

  lemma QuietOneRefundEach(s: Books, a: Action)
    requires ApartInv(s) && Quiet(s, a) && (a.StartRefund? ==> NoRefundOf(s, a.order))
    ensures OneRefundEach(Next(s, a).jobs)
  {
    NextJobs(s, a);
    var t := Next(s, a);
    forall p, o: nat | p in t.jobs && IsRefundOf(t.jobs[p], o)
      ensures (p in s.jobs && IsRefundOf(s.jobs[p], o)) || (a.StartRefund? && a.pid == p && a.order == o)
    {
    }
  }

  lemma QuietKeepsApart(s: Books, a: Action)
    requires ApartInv(s) && Quiet(s, a) && (a.StartRefund? ==> NoRefundOf(s, a.order))
    ensures ApartInv(Next(s, a))
  {
    var t := Next(s, a);
    RunInvNext(s, a);
    NextJobs(s, a);
    QuietOneRefundEach(s, a);
    forall p | p in t.jobs ensures FirstReversal(t, t.jobs[p]) {
      QuietLeavesRows(s, a, t.jobs[p].order);
      if p in s.jobs {
        assert FirstReversal(s, s.jobs[p]) && JobOk(s.orders, s.entries, s.jobs[p]);
        if s.jobs[p].ReadingRows? {
          ReadTakesBack(s, s.jobs[p].order);
        }
      }
    }
  }

  lemma WriteKeepsApart(s: Books, pid: nat)
    requires ApartInv(s) && pid in s.jobs && s.jobs[pid].Writing?
    ensures ApartInv(Work(s, pid))
  {
    var t, job := Work(s, pid), s.jobs[pid];
    RunInvNext(s, Step(pid));
    StepIsWork(s, pid);
    WriteActsOnRows(s, pid);
    forall p | p in t.jobs ensures FirstReversal(t, t.jobs[p]) {
      assert FirstReversal(s, s.jobs[p]);
      if t.jobs[p].order != job.order {
        WriteLeavesOthers(s, pid, t.jobs[p].order);
      } else if !IsRefundWrite(job) {
        PlainWrite(s, pid);
      } else if IsRefundWrite(t.jobs[p]) {
        assert IsRefundOf(job, job.order) && IsRefundOf(s.jobs[p], job.order);
      }
    }
  }

  lemma ApartNext(s: Books, a: Action)
    requires ApartInv(s) && (a.StartRefund? ==> NoRefundOf(s, a.order))
    ensures ApartInv(Next(s, a))
  {
    if Quiet(s, a) {
      QuietKeepsApart(s, a);
    } else {
      StepIsWork(s, a.pid);
      WriteKeepsApart(s, a.pid);
    }
  }

  lemma {:induction false} ApartRunsKeep(actions: seq<Action>)
    requires RefundsApart(actions)
    ensures ApartInv(Exec(actions))
    decreases actions
  {
    if actions != [] {
      ApartRunsKeep(actions[..|actions| - 1]);
      ApartNext(Exec(actions[..|actions| - 1]), actions[|actions| - 1]);
    }
  }

  lemma RefundsApartPrefix(actions: seq<Action>, n: nat)
    requires n <= |actions| && RefundsApart(actions)
    ensures RefundsApart(actions[..n])
    decreases |actions|
  {
    if n < |actions| {
      RefundsApartPrefix(actions[..|actions| - 1], n);
      assert actions[..|actions| - 1][..n] == actions[..n];
    } else {
      assert actions[..n] == actions;
    }
  }

  /** Refund calls of one order that never overlap never reverse it twice. */
  lemma ApartRefundsNeverReverseTwice(actions: seq<Action>)
    requires RefundsApart(actions)
    ensures NeverReversesTwice(actions)
  {
    forall n, o: nat | 0 <= n < |actions| && o < |Exec(actions[..n]).orders|
      ensures !ReversesTwice(Exec(actions[..n]), actions[n], o)
    {
      RefundsApartPrefix(actions, n);
      ApartRunsKeep(actions[..n]);
    }
  }

  /**
   * However accruals, postings, payouts, refunds and crashes interleave, what an event's producer,
   * platform and promoters are owed is exactly the money of its posted, unreversed orders less the
   * payouts, as long as no order is reversed twice - which refund calls that do not overlap never do.
   */
  lemma Reconciliation(actions: seq<Action>, e: nat)
    requires NeverReversesTwice(actions) || RefundsApart(actions)
    ensures var s := Exec(actions); var sum := EventSummary(s.entries, e);
      sum.producerPayable + sum.platformNet + sum.promoterPayable == Kept(s, e, |s.orders|) - sum.payouts
  {
    if RefundsApart(actions) {
      ApartRefundsNeverReverseTwice(actions);
    }
    ReconciliationExactly(actions);
    assert actions[..|actions|] == actions && SummaryAgrees(Exec(actions[..|actions|]), e);
  }

  // ----- Two overlapping refunds, concretely -----------------------------------------------------

  const RefundedOrder := AccruedOrder.(status := S.Refunded)
  const SoldRows := [SaleRow] + CommissionRows

  /** What the first refund writes, having read the sale alone, and what the second one computes. */
  const EarlyReversal := [Entry(0, Some(0), ProducerAccount, Refund, -1000, None)]
  const PromoterRefund := Entry(0, Some(0), PromoterAccount, Refund, -100, Some(7))
  const LateReversal := [Entry(0, Some(0), ProducerAccount, Refund, -900, Some(7)), PromoterRefund]

  /** Both refunds have read; between their reads the posting has written the commission. */
  const TwoRefunds := Books(
    [RefundedOrder], SoldRows, map[4 := Writing(0, EarlyReversal), 5 := Writing(0, LateReversal)], map[])

  const AfterTwoRefunds := SoldRows + EarlyReversal + [PromoterRefund]

  lemma EarlyReversalComputed()
    ensures Reversal([SaleRow]) == EarlyReversal
  {
    var rows := [SaleRow];
    assert rows[..0] == [] && [ProducerAccount][..0] == [];
    assert Accounts(rows) == [ProducerAccount];
    SumWhen(true, SaleRow, InAccount(ProducerAccount));
    assert Balance(rows, ProducerAccount) == 1000;
    assert LastPromoter(rows, ProducerAccount) == None;
    assert ReversalOf(rows, [ProducerAccount]) == ReversalOf(rows, []) + Compensation(rows, ProducerAccount);
  }

  lemma SoldBalances()
    ensures Balance(SoldRows, ProducerAccount) == 900 && Balance(SoldRows, PromoterAccount) == 100
    ensures Accounts(SoldRows) == [ProducerAccount, PromoterAccount]
    ensures LastPromoter(SoldRows, ProducerAccount) == Some(7) && LastPromoter(SoldRows, PromoterAccount) == Some(7)
  {
    var one, two := [SaleRow], [SaleRow] + [CommissionRows[0]];
    assert SoldRows[..2] == two && two[..1] == one && one[..0] == [];
    assert SoldRows == two + [CommissionRows[1]];
    SumPush(two, CommissionRows[1], InAccount(ProducerAccount));
    SumPush(two, CommissionRows[1], InAccount(PromoterAccount));
    SumPush(one, CommissionRows[0], InAccount(ProducerAccount));
    SumPush(one, CommissionRows[0], InAccount(PromoterAccount));
    assert Accounts(one) == [ProducerAccount];
    assert Accounts(two) == [ProducerAccount];
    assert LastPromoter(two, ProducerAccount) == Some(7);
  }

  lemma LateReversalComputed()
    ensures Reversal(SoldRows) == LateReversal
  {
    SoldBalances();
    var accounts := [ProducerAccount, PromoterAccount];
    assert accounts[..1] == [ProducerAccount] && [ProducerAccount][..0] == [];
    assert ReversalOf(SoldRows, [ProducerAccount]) == [LateReversal[0]];
    assert ReversalOf(SoldRows, accounts) == [LateReversal[0]] + [PromoterRefund];
  }

  lemma {:induction false} RowsOfOneOrder(entries: seq<Entry>, o: nat)
    requires OfOrder(entries, o)
    ensures Rows(entries, o) == entries
  {
    if entries != [] {
      RowsOfOneOrder(entries[..|entries| - 1], o);
    }
  }

  /** A refund call of order 0, up to the point where it is about to write. */
  lemma RefundReads(s: Books, actions: seq<Action>, pid: nat) returns (more: seq<Action>)
    requires Exec(actions) == s && 0 < |s.orders| && pid !in s.jobs
    ensures Exec(more)
         == Settle(s, 0, false).(jobs := s.jobs[pid := Writing(0, Reversal(Rows(s.entries, 0)))])
  {
    var settled := Settle(s, 0, false);
    SettleLeaves(s, 0, false);
    StartRefundStep(s, pid, 0);
    more := Then(s, actions, StartRefund(pid, 0, false));
    ReadRowsStep(Begin(settled, pid, ReadingRows(0)), pid, 0);
    more := Then(Begin(settled, pid, ReadingRows(0)), more, Step(pid));
  }

  /** The same, with the settled tables and the batch it will write given. */
  lemma RefundReadsBatch(s: Books, settled: Books, actions: seq<Action>, pid: nat, batch: seq<Entry>)
      returns (more: seq<Action>)
    requires Exec(actions) == s && 0 < |s.orders| && pid !in s.jobs && Settle(s, 0, false) == settled
    requires Reversal(Rows(s.entries, 0)) == batch
    ensures Exec(more) == settled.(jobs := s.jobs[pid := Writing(0, batch)])
  {
    more := RefundReads(s, actions, pid);
  }

  lemma RaceSettled()
    ensures Settle(RaceState, 0, false) == RaceState.(orders := [RefundedOrder])
  {
    assert RaceState.orders[0 := RefundedOrder] == [RefundedOrder];
  }

  lemma EarlyBatch()
    ensures Reversal(Rows([SaleRow], 0)) == EarlyReversal
  {
    PostingsOfTheRace();
    EarlyReversalComputed();
  }

  lemma RaceAfterFirstRead() returns (actions: seq<Action>)
    ensures Exec(actions)
         == Books([RefundedOrder], [SaleRow], map[3 := Writing(0, SoldRows), 4 := Writing(0, EarlyReversal)], map[])
  {
    actions := RaceReachable();
    EarlyBatch();
    RaceSettled();
    actions := RefundReadsBatch(RaceState, RaceState.(orders := [RefundedOrder]), actions, 4, EarlyReversal);
  }

  lemma RaceAfterPosting() returns (actions: seq<Action>)
    ensures Exec(actions) == Books([RefundedOrder], SoldRows, map[4 := Writing(0, EarlyReversal)], map[])
  {
    actions := RaceAfterFirstRead();
    var s := Books([RefundedOrder], [SaleRow], map[3 := Writing(0, SoldRows), 4 := Writing(0, EarlyReversal)], map[]);
    SaleThenCommission();
    WriteBatchStep(s, 3, 0, SoldRows);
    actions := Then(s, actions, Step(3));
    assert s.jobs - {3} == map[4 := Writing(0, EarlyReversal)];
  }

  lemma LateBatch()
    ensures Reversal(Rows(SoldRows, 0)) == LateReversal
  {
    RowsOfOneOrder(SoldRows, 0);
    LateReversalComputed();
  }

  lemma SettledAlready(s: Books)
    requires s.orders == [RefundedOrder]
    ensures Settle(s, 0, false) == s
  {
  }

  lemma TwoRefundsReachable() returns (actions: seq<Action>)
    ensures Exec(actions) == TwoRefunds
  {
    var s := Books([RefundedOrder], SoldRows, map[4 := Writing(0, EarlyReversal)], map[]);
    actions := RaceAfterPosting();
    LateBatch();
    SettledAlready(s);
    actions := RefundReadsBatch(s, s, actions, 5, LateReversal);
  }

  lemma SaleThenCommission()
    ensures PostAll([SaleRow], SoldRows) == SoldRows
  {
    PostConcat([SaleRow], [SaleRow], CommissionRows);
    AllStoredIn([SaleRow], []);
    PostStored([SaleRow], [SaleRow]);
    PostFresh([SaleRow], CommissionRows);
  }

  /** The second reversal's producer entry is stored already; only its promoter entry is added. */
  lemma LateReversalWritten()
    ensures PostAll(SoldRows + EarlyReversal, LateReversal) == AfterTwoRefunds
  {
    var rows := SoldRows + EarlyReversal;
    assert LateReversal == [LateReversal[0]] + [PromoterRefund];
    PostConcat(rows, [LateReversal[0]], [PromoterRefund]);
    assert SameKey(rows[3], LateReversal[0]);
    PostStored(rows, [LateReversal[0]]);
    PostFresh(rows, [PromoterRefund]);
  }

  lemma SoldRowsSum()
    ensures Sum(SoldRows, Amount()) == 1000
  {
    assert SoldRows == [SaleRow] + [CommissionRows[0]] + [CommissionRows[1]];
    SumPush([SaleRow] + [CommissionRows[0]], CommissionRows[1], Amount());
    SumPush([SaleRow], CommissionRows[0], Amount());
    SumWhen(true, SaleRow, Amount());
  }

  lemma BothReversalsWritten()
    ensures PostAll(PostAll(SoldRows, EarlyReversal), LateReversal) == AfterTwoRefunds
    ensures Sum(AfterTwoRefunds, Amount()) == -100
  {
    NoRefundStored(SoldRows, EarlyReversal);
    PostFresh(SoldRows, EarlyReversal);
    LateReversalWritten();
    SoldRowsSum();
    SumPush(SoldRows, EarlyReversal[0], Amount());
    SumPush(SoldRows + EarlyReversal, PromoterRefund, Amount());
  }

  lemma OverlapReachable() returns (actions: seq<Action>)
    ensures Exec(actions) == Books([RefundedOrder], AfterTwoRefunds, map[], map[])
  {
    actions := TwoRefundsReachable();
    BothReversalsWritten();
    WriteBatchStep(TwoRefunds, 4, 0, EarlyReversal);
    actions := Then(TwoRefunds, actions, Step(4));
    var s1 := Books([RefundedOrder], PostAll(SoldRows, EarlyReversal), map[5 := Writing(0, LateReversal)], map[]);
    assert TwoRefunds.jobs - {4} == s1.jobs;
    WriteBatchStep(s1, 5, 0, LateReversal);
    actions := Then(s1, actions, Step(5));
    assert s1.jobs - {5} == map[];
  }

  /**
   * Two refund calls of one order, the first reading before its commission was posted and the second
   * after, reverse it twice: the event ends 100 cents below the money of its orders.
   */
  lemma OverlappingRefundsBreakIt()
    ensures exists actions ::
      var s := Exec(actions); var sum := EventSummary(s.entries, 0);
      sum.producerPayable + sum.platformNet + sum.promoterPayable == Kept(s, 0, |s.orders|) - sum.payouts - 100
  {
    var actions := OverlapReachable();
    var s := Exec(actions);
    BothReversalsWritten();
    LedgerTotalsByOrder(actions, 0);
    RowsOfOneOrder(AfterTwoRefunds, 0);
    assert AfterTwoRefunds[3].kind == Refund;
    assert Kept(s, 0, 1) == 0;
    assert ByOrder(s.orders, s.entries, 0, 1, Amount()) == -100;
    var sum := EventSummary(s.entries, 0);
    assert sum.producerPayable + sum.platformNet + sum.promoterPayable == Kept(s, 0, |s.orders|) - sum.payouts - 100;
  }
}
