/** When the event summary adds up to the orders that were posted and not reversed. */
module FinanceReconciliation {
  import opened Base
  import opened Ledger
  import opened LedgerProofs
  import opened FinanceProtocol
  import opened FinanceRuns
  import opened FinanceGuarantees
  import opened FinanceRefunds
  import S = SalesModel

  // ----- Reconciliation -----------------------------------------------------------------------

  function PaidFrom(e: nat, account: Account): Entry -> int {
    (x: Entry) => if x.eventId == e && x.account == account && x.kind == Payout then x.amount else 0
  }

  /** What was paid out of an account of the event. */
  function PaidOut(entries: seq<Entry>, e: nat, account: Account): int {
    -Sum(entries, PaidFrom(e, account))
  }

  /** An account's sum over an event is what its orders' rows hold on it less what was paid out of it. */
  lemma AccountByOrder(s: Books, e: nat, a: Account)
    requires Inv(s)
    ensures Sum(s.entries, InEvent(e, InAccount(a)))
         == ByOrder(s.orders, s.entries, e, |s.orders|, InAccount(a)) - PaidOut(s.entries, e, a)
    ensures a == PlatformAccount ==> PaidOut(s.entries, e, a) == 0
  {
    forall k | 0 <= k < |s.entries|
      ensures BelongsToOrder(s.orders, s.entries[k]) && LooseIn(e, InAccount(a))(s.entries[k]) == PaidFrom(e, a)(s.entries[k])
      ensures a == PlatformAccount ==> PaidFrom(e, a)(s.entries[k]) == 0
    {
      assert EntryOk(s.orders, s.entries[k]);
    }
    LedgerPartition(s.orders, s.entries, e, InAccount(a));
    SumEq(s.entries, LooseIn(e, InAccount(a)), PaidFrom(e, a));
    if a == PlatformAccount {
      SumZero(s.entries, PaidFrom(e, a));
    }
  }

  lemma PayoutsByAccount(s: Books, e: nat)
    requires Inv(s)
    ensures EventSummary(s.entries, e).payouts == PaidOut(s.entries, e, ProducerAccount) + PaidOut(s.entries, e, PromoterAccount)
  {
    forall k | 0 <= k < |s.entries|
      ensures TypeIn(e, Payout)(s.entries[k])
        == PaidFrom(e, ProducerAccount)(s.entries[k]) + PaidFrom(e, PromoterAccount)(s.entries[k])
    {
      assert EntryOk(s.orders, s.entries[k]);
    }
    SumSplit(s.entries, TypeIn(e, Payout), PaidFrom(e, ProducerAccount), PaidFrom(e, PromoterAccount));
  }

  lemma AllAccountsByOrder(s: Books, e: nat, n: nat)
    requires n <= |s.orders|
    ensures ByOrder(s.orders, s.entries, e, n, Amount())
         == ByOrder(s.orders, s.entries, e, n, InAccount(ProducerAccount))
            + ByOrder(s.orders, s.entries, e, n, InAccount(PlatformAccount))
            + ByOrder(s.orders, s.entries, e, n, InAccount(PromoterAccount))
  {
    if n > 0 {
      AllAccountsByOrder(s, e, n - 1);
      AccountsAreWhole(RowsOf(s, n - 1));
    }
  }

  /**
   * In every run, whatever interleaved: each payable of the summary is what the rows of the event's orders
   * hold on its own account less what was paid out of it, and together they are the rows less the payouts.
   */
  lemma LedgerTotalsByOrder(actions: seq<Action>, e: nat)
    ensures var s := Exec(actions); var sum := EventSummary(s.entries, e); var n := |s.orders|;
      && sum.producerPayable
          == ByOrder(s.orders, s.entries, e, n, InAccount(ProducerAccount)) - PaidOut(s.entries, e, ProducerAccount)
      && sum.platformNet == ByOrder(s.orders, s.entries, e, n, InAccount(PlatformAccount))
      && sum.promoterPayable
          == ByOrder(s.orders, s.entries, e, n, InAccount(PromoterAccount)) - PaidOut(s.entries, e, PromoterAccount)
      && sum.payouts == PaidOut(s.entries, e, ProducerAccount) + PaidOut(s.entries, e, PromoterAccount)
      && sum.producerPayable + sum.platformNet + sum.promoterPayable
          == ByOrder(s.orders, s.entries, e, n, Amount()) - sum.payouts
  {
    EveryRunKeeps(actions);
    var s := Exec(actions);
    AccountByOrder(s, e, ProducerAccount);
    AccountByOrder(s, e, PlatformAccount);
    AccountByOrder(s, e, PromoterAccount);
    SumEq(s.entries, AccountIn(e, ProducerAccount), InEvent(e, InAccount(ProducerAccount)));
    SumEq(s.entries, AccountIn(e, PlatformAccount), InEvent(e, InAccount(PlatformAccount)));
    SumEq(s.entries, AccountIn(e, PromoterAccount), InEvent(e, InAccount(PromoterAccount)));
    PayoutsByAccount(s, e);
    AllAccountsByOrder(s, e, |s.orders|);
  }

  predicate Outstanding(rows: seq<Entry>) {
    rows != [] && !HasRefund(rows)
  }

  /** What the first `n` orders of the event brought in and kept: posted, not reversed, net of PSP cost. */
  function Kept(s: Books, e: nat, n: nat): int
    requires n <= |s.orders|
  {
    if n == 0 then 0
    else Kept(s, e, n - 1)
         + if s.orders[n - 1].eventId == e && Outstanding(RowsOf(s, n - 1))
           then s.orders[n - 1].total - s.orders[n - 1].pspCost else 0
  }

  lemma AccountsAreWhole(rows: seq<Entry>)
    ensures Sum(rows, Amount())
         == Balance(rows, ProducerAccount) + Balance(rows, PlatformAccount) + Balance(rows, PromoterAccount)
  {
    var rest := (x: Entry) => InAccount(PlatformAccount)(x) + InAccount(PromoterAccount)(x);
    SumSplit(rows, rest, InAccount(PlatformAccount), InAccount(PromoterAccount));
    SumSplit(rows, Amount(), InAccount(ProducerAccount), rest);
  }

  /** The order's rows hold what it brought in, or nothing at all. */
  predicate Reconciled(s: Books, o: nat)
    requires o < |s.orders|
  {
    Sum(RowsOf(s, o), Amount())
    == if Outstanding(RowsOf(s, o)) then s.orders[o].total - s.orders[o].pspCost else 0
  }

  // ----- A reversal in flight -----------------------------------------------------------------------

  predicate IsRefundWrite(job: Job) {
    job.Writing? && job.batch != [] && job.batch[0].kind == Refund
  }

  /** A reversal about to be written takes back exactly what its order brought in. */
  predicate TakesBack(orders: seq<OrderFacts>, job: Job) {
    IsRefundWrite(job) ==>
      job.order < |orders| && Sum(job.batch, Amount()) == orders[job.order].pspCost - orders[job.order].total
  }

  ghost predicate RunInv(s: Books) {
    Inv(s) && forall pid :: pid in s.jobs ==> TakesBack(s.orders, s.jobs[pid])
  }

  /** What reversing an unreversed order writes is the negation of its rows. */
  lemma ReversalTakesAll(s: Books, o: nat)
    requires Inv(s) && o < |s.orders| && RowsOf(s, o) != [] && !HasRefund(RowsOf(s, o))
    ensures Sum(Reversal(RowsOf(s, o)), Amount()) == s.orders[o].pspCost - s.orders[o].total
  {
    var rows := RowsOf(s, o);
    var only := OrderHasOnePromoter(s, o);
    RowsOfOrder(s.entries, o);
    ReversalZeroes(rows, o, only);
    AccountsAreWhole(rows + Reversal(rows));
    SumConcat(rows, Reversal(rows), Amount());
    UnreversedOrderConserves(s, o);
  }

  lemma ReadTakesBack(s: Books, o: nat)
    requires Inv(s) && o < |s.orders|
    ensures TakesBack(s.orders, Writing(o, Reversal(RowsOf(s, o))))
    ensures IsRefundWrite(Writing(o, Reversal(RowsOf(s, o)))) ==> !HasRefund(RowsOf(s, o))
  {
    if RowsOf(s, o) != [] && !HasRefund(RowsOf(s, o)) {
      ReversalTakesAll(s, o);
    }
  }

  // ----- Orders move forward under every action ------------------------------------------------------

  lemma ForwardReflexive(s: Books)
    requires Inv(s)
    ensures Forward(s.orders, s.orders)
  {
    forall i: nat | i < |s.orders| ensures Moves(s.orders[i], s.orders[i]) {
      assert OrderOk(i, s.orders[i], Rows(s.entries, i));
    }
  }

  lemma OneMovesForward(s: Books, o: nat, g: OrderFacts)
    requires Inv(s) && o < |s.orders| && Moves(s.orders[o], g)
    ensures Forward(s.orders, s.orders[o := g])
  {
    ForwardReflexive(s);
  }

  lemma StatusForward(s: Books, o: nat, status: S.OrderStatus)
    requires Inv(s) && StatusIs(s, o, S.AwaitingPayment) && status in {S.Paid, S.OrderExpired}
    ensures Forward(s.orders, WithStatus(s, o, status).orders)
  {
    assert OrderOk(o, s.orders[o], Rows(s.entries, o));
    OneMovesForward(s, o, s.orders[o].(status := status));
  }

  lemma OrderActionForward(s: Books, a: Action)
    requires Inv(s) && (a.PlaceOrder? || a.MarkPaid? || a.Expire?)
    ensures Forward(s.orders, Next(s, a).orders) && Next(s, a).entries == s.entries && Next(s, a).jobs == s.jobs
  {
    ForwardReflexive(s);
    if a.PlaceOrder? {
      if AmountsAgree(a.facts) && a.facts.status == S.AwaitingPayment && a.facts.accrued.None? {
        PlacedOrderMovesNothing(s.orders, s.entries, a.facts);
      }
    } else if StatusIs(s, a.order, S.AwaitingPayment) {
      StatusForward(s, a.order, if a.MarkPaid? then S.Paid else S.OrderExpired);
    }
  }

  lemma SettleForward(s: Books, o: nat, chargeback: bool)
    requires Inv(s)
    ensures Forward(s.orders, Settle(s, o, chargeback).orders)
  {
    ForwardReflexive(s);
    assert o < |s.orders| ==> OrderOk(o, s.orders[o], Rows(s.entries, o));
    if StatusIs(s, o, S.Paid) {
      OneMovesForward(s, o, s.orders[o].(status := if chargeback then S.Chargeback else S.Refunded));
    }
  }

  lemma WorkForward(s: Books, pid: nat)
    requires Inv(s) && pid in s.jobs
    ensures Forward(s.orders, Work(s, pid).orders)
  {
    ForwardReflexive(s);
    if s.jobs[pid].Accruing? {
      var Accruing(o, a) := s.jobs[pid];
      assert JobOk(s.orders, s.entries, s.jobs[pid]) && OrderOk(o, s.orders[o], Rows(s.entries, o));
      if s.orders[o].accrued.None? {
        OneMovesForward(s, o, s.orders[o].(accrued := Some(a)));
      }
    }
  }

  lemma NextForward(s: Books, a: Action)
    requires Inv(s)
    ensures Forward(s.orders, Next(s, a).orders)
  {
    ForwardReflexive(s);
    match a {
      case PlaceOrder(_) => OrderActionForward(s, a);
      case MarkPaid(_) => OrderActionForward(s, a);
      case Expire(_) => OrderActionForward(s, a);
      case StartRefund(pid, o, chargeback) =>
        RefundIsBegin(s, pid, o, chargeback);
        SettleForward(s, o, chargeback);
      case Step(pid) =>
        StepIsWork(s, pid);
        if pid in s.jobs {
          WorkForward(s, pid);
        }
      case _ =>
    }
  }

  // ----- What every run keeps ------------------------------------------------------------------------

  /** A job an action puts in place: a start, a posting to write, or a reversal just read. */
  predicate IsNewJob(s: Books, a: Action, pid: nat, job: Job) {
    || job.Accruing? || job.ReadingCommission?
    || (job.Writing? && !IsRefundWrite(job))
    || (a.StartRefund? && a.pid == pid && pid !in s.jobs && job == ReadingRows(a.order))
    || (pid in s.jobs && s.jobs[pid].ReadingRows? && job == Writing(s.jobs[pid].order, Reversal(RowsOf(s, s.jobs[pid].order))))
  }

  lemma WorkJobs(s: Books, pid: nat)
    requires Inv(s) && pid in s.jobs
    ensures forall p :: p in Work(s, pid).jobs ==>
      (p in s.jobs && Work(s, pid).jobs[p] == s.jobs[p]) || IsNewJob(s, Step(pid), p, Work(s, pid).jobs[p])
  {
    assert JobOk(s.orders, s.entries, s.jobs[pid]);
    if s.jobs[pid].ReadingCommission? {
      PostingShape(s.jobs[pid].order, s.orders[s.jobs[pid].order]);
    }
  }

  lemma NextJobs(s: Books, a: Action)
    requires Inv(s)
    ensures forall p :: p in Next(s, a).jobs ==>
      (p in s.jobs && Next(s, a).jobs[p] == s.jobs[p]) || IsNewJob(s, a, p, Next(s, a).jobs[p])
  {
    if a.Step? {
      StepIsWork(s, a.pid);
      if a.pid in s.jobs {
        WorkJobs(s, a.pid);
      }
    } else if a.StartRefund? {
      RefundIsBegin(s, a.pid, a.order, a.chargeback);
      SettleLeaves(s, a.order, a.chargeback);
    } else if IsPay(a) {
      PayLeaves(s, a, 0);
    }
  }

  lemma RunInvNext(s: Books, a: Action)
    requires RunInv(s)
    ensures RunInv(Next(s, a))
  {
    var t := Next(s, a);
    NextKeeps(s, a);
    NextForward(s, a);
    NextJobs(s, a);
    forall p | p in t.jobs ensures TakesBack(t.orders, t.jobs[p]) {
      if p in s.jobs {
        assert TakesBack(s.orders, s.jobs[p]) && JobOk(s.orders, s.entries, s.jobs[p]);
        assert Moves(s.orders[s.jobs[p].order], t.orders[s.jobs[p].order]);
        if s.jobs[p].ReadingRows? {
          ReadTakesBack(s, s.jobs[p].order);
        }
      }
    }
  }

  lemma {:induction false} RunInvAlways(actions: seq<Action>)
    ensures RunInv(Exec(actions))
    decreases actions
  {
    if actions != [] {
      RunInvAlways(actions[..|actions| - 1]);
      RunInvNext(Exec(actions[..|actions| - 1]), actions[|actions| - 1]);
    }
  }

  // ----- Writes ---------------------------------------------------------------------------------------

  lemma SameRefunds(a: seq<Entry>, b: seq<Entry>)
    requires Only(a, true) == Only(b, true)
    ensures HasRefund(a) == HasRefund(b)
  {
    OnlyMembers(a, true);
    OnlyMembers(b, true);
    if HasRefund(a) {
      var k :| 0 <= k < |a| && a[k].kind == Refund;
      assert a[k] in Only(b, true);
    }
    if HasRefund(b) {
      var k :| 0 <= k < |b| && b[k].kind == Refund;
      assert b[k] in Only(a, true);
    }
  }

  lemma PairIsZero(o: nat, f: OrderFacts)
    ensures Sum(CommissionPair(o, f), Amount()) == 0
  {
    SumPair(o, f, Amount());
  }

  /** A posting changes neither whether an order is reversed nor, once it is, what its rows sum to. */
  lemma PostingKeepsReversed(o: nat, f: OrderFacts, rows: seq<Entry>, batch: seq<Entry>)
    requires OrderOk(o, f, rows) && (batch == BasePosting(o, f) || batch == Posting(o, f))
    ensures HasRefund(PostAll(rows, batch)) == HasRefund(rows)
    ensures HasRefund(rows) ==> Sum(PostAll(rows, batch), Amount()) == Sum(rows, Amount())
  {
    PostingShape(o, f);
    OnlyPost(rows, batch, false);
    SameRefunds(rows, PostAll(rows, batch));
    if HasRefund(rows) {
      if AllStored(rows, batch) {
        PostStored(rows, batch);
      } else {
        PostWriteAddsPair(o, f, rows, batch);
        PairIsZero(o, f);
        SumConcat(rows, CommissionPair(o, f), Amount());
      }
    }
  }

  lemma NoRefundStored(rows: seq<Entry>, batch: seq<Entry>)
    requires !HasRefund(rows) && Uniform(batch, true)
    ensures NoneStored(rows, batch)
  {
  }

  /** The first reversal of an order, whatever was posted since it was computed, leaves it at zero. */
  lemma ReversalWriteZeroes(s: Books, o: nat, batch: seq<Entry>)
    requires Inv(s) && o < |s.orders| && RefundBatch(s.orders, s.entries, o, batch) && batch != []
    requires !HasRefund(RowsOf(s, o)) && Sum(batch, Amount()) == s.orders[o].pspCost - s.orders[o].total
    ensures Sum(PostAll(RowsOf(s, o), batch), Amount()) == 0
  {
    var rows := RowsOf(s, o);
    NoRefundStored(rows, batch);
    PostFresh(rows, batch);
    SumConcat(rows, batch, Amount());
    UnreversedOrderConserves(s, o);
  }

  lemma WriteLeavesOthers(s: Books, pid: nat, o: nat)
    requires Inv(s) && pid in s.jobs && s.jobs[pid].Writing? && s.jobs[pid].order != o
    ensures RowsOf(Work(s, pid), o) == RowsOf(s, o)
  {
    var job := s.jobs[pid];
    assert JobOk(s.orders, s.entries, job);
    BatchEntriesOk(s, job.order, job.batch);
    PostByOrder(s.entries, job.batch, job.order, o);
  }

  lemma WriteActsOnRows(s: Books, pid: nat)
    requires Inv(s) && pid in s.jobs && s.jobs[pid].Writing?
    ensures RowsOf(Work(s, pid), s.jobs[pid].order) == PostAll(RowsOf(s, s.jobs[pid].order), s.jobs[pid].batch)
    ensures Work(s, pid).orders == s.orders && Work(s, pid).jobs == s.jobs - {pid}
  {
    var job := s.jobs[pid];
    assert JobOk(s.orders, s.entries, job);
    BatchEntriesOk(s, job.order, job.batch);
    PostByOrder(s.entries, job.batch, job.order, job.order);
  }

  /** A write that is no reversal: a posting, or an empty reversal. */
  lemma PlainWrite(s: Books, pid: nat)
    requires Inv(s) && pid in s.jobs && s.jobs[pid].Writing? && !IsRefundWrite(s.jobs[pid])
    ensures var job := s.jobs[pid]; var rows, out := RowsOf(s, job.order), RowsOf(Work(s, pid), job.order);
      HasRefund(out) == HasRefund(rows) && (HasRefund(rows) ==> Sum(out, Amount()) == Sum(rows, Amount()))
  {
    var o, batch := s.jobs[pid].order, s.jobs[pid].batch;
    assert JobOk(s.orders, s.entries, s.jobs[pid]);
    assert OrderOk(o, s.orders[o], RowsOf(s, o));
    WriteActsOnRows(s, pid);
    if PostBatch(o, s.orders[o], batch) {
      PostingKeepsReversed(o, s.orders[o], RowsOf(s, o), batch);
    } else {
      assert batch == [];
    }
  }

  // ----- One step ---------------------------------------------------------------------------------------

  /**
   * The write of a reversal that finds its order reversed already - the guard of a reversal is checked
   * when it reads, not here - and whose entries that are not stored yet do not cancel out.
   */
  predicate ReversesTwice(s: Books, a: Action, o: nat) {
    && a.Step? && a.pid in s.jobs && IsRefundWrite(s.jobs[a.pid]) && s.jobs[a.pid].order == o
    && HasRefund(RowsOf(s, o))
    && Sum(Unstored(RowsOf(s, o), s.jobs[a.pid].batch), Amount()) != 0
  }

  lemma SecondReversalRows(rows: seq<Entry>, batch: seq<Entry>)
    requires HasRefund(rows) && DistinctKeys(batch)
    ensures HasRefund(PostAll(rows, batch))
    ensures Sum(PostAll(rows, batch), Amount()) == Sum(rows, Amount()) + Sum(Unstored(rows, batch), Amount())
  {
    PostWritesUnstored(rows, batch);
    SumConcat(rows, Unstored(rows, batch), Amount());
    var k :| 0 <= k < |rows| && rows[k].kind == Refund;
    assert (rows + Unstored(rows, batch))[k].kind == Refund;
  }

  lemma FirstReversalRows(rows: seq<Entry>, batch: seq<Entry>)
    requires !HasRefund(rows) && Uniform(batch, true) && DistinctKeys(batch) && batch != []
    requires forall k :: 0 <= k < |batch| ==> batch[k].orderId.Some?
    ensures HasRefund(PostAll(rows, batch))
  {
    NoRefundStored(rows, batch);
    PostFresh(rows, batch);
    assert (rows + batch)[|rows|] == batch[0];
  }

  /** A reversal's batch in flight is one of REFUND entries with distinct keys. */
  lemma RefundWriteIsBatch(s: Books, pid: nat)
    requires Inv(s) && pid in s.jobs && IsRefundWrite(s.jobs[pid])
    ensures s.jobs[pid].order < |s.orders| && RefundBatch(s.orders, s.entries, s.jobs[pid].order, s.jobs[pid].batch)
  {
    assert JobOk(s.orders, s.entries, s.jobs[pid]);
    PostingShape(s.jobs[pid].order, s.orders[s.jobs[pid].order]);
  }

  lemma RefundWriteExactly(s: Books, pid: nat)
    requires RunInv(s) && pid in s.jobs && IsRefundWrite(s.jobs[pid])
    ensures var o := s.jobs[pid].order;
      && o < |s.orders| && Work(s, pid).orders == s.orders
      && (Reconciled(s, o) ==> (Reconciled(Work(s, pid), o) <==> !ReversesTwice(s, Step(pid), o)))
  {
    var Writing(o, batch) := s.jobs[pid];
    RefundWriteIsBatch(s, pid);
    WriteActsOnRows(s, pid);
    if HasRefund(RowsOf(s, o)) {
      SecondReversalRows(RowsOf(s, o), batch);
    } else {
      assert TakesBack(s.orders, s.jobs[pid]);
      ReversalWriteZeroes(s, o, batch);
      FirstReversalRows(RowsOf(s, o), batch);
    }
  }

  lemma PlainWriteReconciles(s: Books, pid: nat)
    requires RunInv(s) && pid in s.jobs && s.jobs[pid].Writing? && !IsRefundWrite(s.jobs[pid])
    requires s.jobs[pid].order < |s.orders| && Reconciled(s, s.jobs[pid].order)
    ensures Work(s, pid).orders == s.orders && Reconciled(Work(s, pid), s.jobs[pid].order)
  {
    var o := s.jobs[pid].order;
    WorkKeeps(s, pid);
    PlainWrite(s, pid);
    if Outstanding(RowsOf(Work(s, pid), o)) {
      UnreversedOrderConserves(Work(s, pid), o);
    }
  }

  /** The action writes no order's entries. */
  predicate Quiet(s: Books, a: Action) {
    !(a.Step? && a.pid in s.jobs && s.jobs[a.pid].Writing?)
  }

  lemma QuietLeavesEntries(s: Books, a: Action)
    requires Inv(s) && Quiet(s, a) && !IsPay(a)
    ensures Next(s, a).entries == s.entries
  {
    if a.Step? {
      StepIsWork(s, a.pid);
    } else if a.StartRefund? {
      RefundIsBegin(s, a.pid, a.order, a.chargeback);
      SettleLeaves(s, a.order, a.chargeback);
    }
  }

  lemma QuietLeavesRows(s: Books, a: Action, o: nat)
    requires Inv(s) && Quiet(s, a)
    ensures RowsOf(Next(s, a), o) == RowsOf(s, o)
  {
    if IsPay(a) {
      PayLeaves(s, a, o);
    } else {
      QuietLeavesEntries(s, a);
    }
  }

  lemma QuietReconcilesAlike(s: Books, a: Action, o: nat)
    requires Inv(s) && Quiet(s, a) && o < |s.orders|
    ensures o < |Next(s, a).orders| && Reconciled(Next(s, a), o) == Reconciled(s, o)
  {
    QuietLeavesRows(s, a, o);
    NextForward(s, a);
    assert Moves(s.orders[o], Next(s, a).orders[o]);
  }

  lemma WriteReconcilesExactly(s: Books, pid: nat, o: nat)
    requires RunInv(s) && pid in s.jobs && s.jobs[pid].Writing? && o < |s.orders| && Reconciled(s, o)
    ensures Work(s, pid).orders == s.orders && (Reconciled(Work(s, pid), o) <==> !ReversesTwice(s, Step(pid), o))
  {
    if s.jobs[pid].order != o {
      WriteLeavesOthers(s, pid, o);
      WriteActsOnRows(s, pid);
    } else if IsRefundWrite(s.jobs[pid]) {
      RefundWriteExactly(s, pid);
    } else {
      PlainWriteReconciles(s, pid);
    }
  }

  lemma NextReconcilesExactly(s: Books, a: Action, o: nat)
    requires RunInv(s) && o < |s.orders| && Reconciled(s, o)
    ensures o < |Next(s, a).orders| && (Reconciled(Next(s, a), o) <==> !ReversesTwice(s, a, o))
  {
    if Quiet(s, a) {
      QuietReconcilesAlike(s, a, o);
    } else {
      StepIsWork(s, a.pid);
      WriteReconcilesExactly(s, a.pid, o);
    }
  }

  /**
   * In every run: a reconciled order stays reconciled under the next action if and only if that action
   * is not the write of a second reversal whose unstored entries are worth something.
   */
  lemma StepReconcilesExactly(actions: seq<Action>, a: Action, o: nat)
    requires o < |Exec(actions).orders| && Reconciled(Exec(actions), o)
    ensures var t := Next(Exec(actions), a);
      o < |t.orders| && (Reconciled(t, o) <==> !ReversesTwice(Exec(actions), a, o))
  {
    RunInvAlways(actions);
    NextReconcilesExactly(Exec(actions), a, o);
  }

  // ----- Whole runs -------------------------------------------------------------------------------------

  /** No action of the run writes such a second reversal. */
  ghost predicate NeverReversesTwice(actions: seq<Action>) {
    forall n, o: nat :: 0 <= n < |actions| && o < |Exec(actions[..n]).orders| ==>
      !ReversesTwice(Exec(actions[..n]), actions[n], o)
  }

  predicate AllReconciled(s: Books) {
    forall o: nat :: o < |s.orders| ==> Reconciled(s, o)
  }

  lemma PlacedOrderReconciled(s: Books, a: Action, o: nat)
    requires Inv(s) && |s.orders| <= o < |Next(s, a).orders|
    ensures Reconciled(Next(s, a), o)
  {
    if Quiet(s, a) {
      QuietLeavesRows(s, a, o);
      NoRowsBeyond(s.orders, s.entries, o);
    } else {
      StepIsWork(s, a.pid);
      WriteActsOnRows(s, a.pid);
    }
  }

  lemma NextAllReconciled(s: Books, a: Action)
    requires RunInv(s) && AllReconciled(s) && forall o: nat :: o < |s.orders| ==> !ReversesTwice(s, a, o)
    ensures AllReconciled(Next(s, a))
  {
    forall o: nat | o < |Next(s, a).orders| ensures Reconciled(Next(s, a), o) {
      if o < |s.orders| {
        assert Reconciled(s, o);
        NextReconcilesExactly(s, a, o);
      } else {
        PlacedOrderReconciled(s, a, o);
      }
    }
  }

  lemma NeverTwicePrefix(actions: seq<Action>, m: nat)
    requires m <= |actions| && NeverReversesTwice(actions)
    ensures NeverReversesTwice(actions[..m])
  {
    forall n | 0 <= n < m ensures actions[..m][..n] == actions[..n] && actions[..m][n] == actions[n] {
    }
  }

  lemma {:induction false} RunAllReconciled(actions: seq<Action>)
    requires NeverReversesTwice(actions)
    ensures AllReconciled(Exec(actions))
    decreases actions
  {
    if actions != [] {
      var n := |actions| - 1;
      NeverTwicePrefix(actions, n);
      RunAllReconciled(actions[..n]);
      RunInvAlways(actions[..n]);
      NextAllReconciled(Exec(actions[..n]), actions[n]);
    }
  }

  /** The first such write of a run that has one. */
  lemma {:induction false} FirstSecondReversal(actions: seq<Action>) returns (n: nat, o: nat)
    requires !NeverReversesTwice(actions)
    ensures n < |actions| && o < |Exec(actions[..n]).orders| && ReversesTwice(Exec(actions[..n]), actions[n], o)
    ensures NeverReversesTwice(actions[..n])
    decreases |actions|
  {
    var m := |actions| - 1;
    if NeverReversesTwice(actions[..m]) {
      n := m;
      if forall q: nat :: q < |Exec(actions[..m]).orders| ==> !ReversesTwice(Exec(actions[..m]), actions[m], q) {
        NeverTwiceExtends(actions);
      }
      o :| o < |Exec(actions[..m]).orders| && ReversesTwice(Exec(actions[..m]), actions[m], o);
    } else {
      n, o := FirstSecondReversal(actions[..m]);
      assert actions[..m][..n] == actions[..n];
    }
  }

  /**
   * Every order is reconciled at every moment of the run if and only if no action of the run is such
   * a write.
   */
  lemma OrdersReconcileExactly(actions: seq<Action>)
    ensures (forall n :: 0 <= n <= |actions| ==> AllReconciled(Exec(actions[..n]))) <==> NeverReversesTwice(actions)
  {
    if NeverReversesTwice(actions) {
      forall n | 0 <= n <= |actions| ensures AllReconciled(Exec(actions[..n])) {
        NeverTwicePrefix(actions, n);
        RunAllReconciled(actions[..n]);
      }
    } else {
      var n, o := FirstSecondReversal(actions);
      RunAllReconciled(actions[..n]);
      assert actions[..n + 1][..n] == actions[..n] && Reconciled(Exec(actions[..n]), o);
      StepReconcilesExactly(actions[..n], actions[n], o);
      assert !Reconciled(Exec(actions[..n + 1]), o);
    }
  }

  lemma NeverTwiceExtends(actions: seq<Action>)
    requires actions != [] && NeverReversesTwice(actions[..|actions| - 1])
    requires var m := |actions| - 1; var s := Exec(actions[..m]);
      forall o: nat :: o < |s.orders| ==> !ReversesTwice(s, actions[m], o)
    ensures NeverReversesTwice(actions)
  {
    var m := |actions| - 1;
    forall n | 0 <= n < m ensures actions[..m][..n] == actions[..n] && actions[..m][n] == actions[n] {
    }
  }

  // ----- The event summary --------------------------------------------------------------------------------

  /** What the event owes is the money of its posted, unreversed orders less the payouts. */
  predicate SummaryAgrees(s: Books, e: nat) {
    var sum := EventSummary(s.entries, e);
    sum.producerPayable + sum.platformNet + sum.promoterPayable == Kept(s, e, |s.orders|) - sum.payouts
  }

  /** By how much an order's rows miss what it should hold. */
  function Gap(s: Books, o: nat): int
    requires o < |s.orders|
  {
    Sum(RowsOf(s, o), Amount()) - if Outstanding(RowsOf(s, o)) then s.orders[o].total - s.orders[o].pspCost else 0
  }

  /** When all orders but one are reconciled, the event misses exactly what that order misses. */
  lemma {:induction false} OnlyGap(s: Books, e: nat, n: nat, o: nat)
    requires n <= |s.orders| && o < |s.orders| && forall q: nat :: q < |s.orders| && q != o ==> Reconciled(s, q)
    ensures ByOrder(s.orders, s.entries, e, n, Amount()) - Kept(s, e, n)
         == if o < n && s.orders[o].eventId == e then Gap(s, o) else 0
  {
    if n > 0 {
      OnlyGap(s, e, n - 1, o);
      if n - 1 != o {
        assert Reconciled(s, n - 1);
      }
    }
  }

  lemma {:induction false} OrdersReconcile(s: Books, e: nat, n: nat)
    requires n <= |s.orders| && forall o: nat :: o < n ==> Reconciled(s, o)
    ensures ByOrder(s.orders, s.entries, e, n, Amount()) == Kept(s, e, n)
  {
    if n > 0 {
      OrdersReconcile(s, e, n - 1);
      assert Reconciled(s, n - 1);
    }
  }

  lemma ReconciledOrdersAgree(actions: seq<Action>, e: nat)
    requires AllReconciled(Exec(actions))
    ensures SummaryAgrees(Exec(actions), e)
  {
    LedgerTotalsByOrder(actions, e);
    OrdersReconcile(Exec(actions), e, |Exec(actions).orders|);
  }

  /** The first second reversal breaks the summary of its order's event at once. */
  lemma SecondReversalShows(actions: seq<Action>, a: Action, o: nat)
    requires AllReconciled(Exec(actions)) && o < |Exec(actions).orders| && ReversesTwice(Exec(actions), a, o)
    ensures o < |Exec(actions + [a]).orders| && !SummaryAgrees(Exec(actions + [a]), Exec(actions + [a]).orders[o].eventId)
  {
    var s, t := Exec(actions), Exec(actions + [a]);
    assert (actions + [a])[..|actions|] == actions;
    RunInvAlways(actions);
    StepIsWork(s, a.pid);
    WriteActsOnRows(s, a.pid);
    assert t.orders == s.orders;
    assert Reconciled(s, o);
    NextReconcilesExactly(s, a, o);
    forall q: nat | q < |t.orders| && q != o ensures Reconciled(t, q) {
      assert Reconciled(s, q);
      NextReconcilesExactly(s, a, q);
    }
    LedgerTotalsByOrder(actions + [a], t.orders[o].eventId);
    OnlyGap(t, t.orders[o].eventId, |t.orders|, o);
  }

  lemma NeverTwiceAgrees(actions: seq<Action>, n: nat, e: nat)
    requires NeverReversesTwice(actions) && n <= |actions|
    ensures SummaryAgrees(Exec(actions[..n]), e)
  {
    NeverTwicePrefix(actions, n);
    RunAllReconciled(actions[..n]);
    ReconciledOrdersAgree(actions[..n], e);
  }

  lemma RunExtends(actions: seq<Action>, m: nat)
    requires m < |actions|
    ensures actions[..m + 1] == actions[..m] + [actions[m]]
  {
  }

  lemma TwiceDisagrees(actions: seq<Action>) returns (n: nat, e: nat)
    requires !NeverReversesTwice(actions)
    ensures n <= |actions| && !SummaryAgrees(Exec(actions[..n]), e)
  {
    var m, o := FirstSecondReversal(actions);
    e := BreaksAfter(actions[..m], actions[m], o);
    RunExtends(actions, m);
    n := m + 1;
  }

  lemma BreaksAfter(before: seq<Action>, a: Action, o: nat) returns (e: nat)
    requires NeverReversesTwice(before) && o < |Exec(before).orders| && ReversesTwice(Exec(before), a, o)
    ensures !SummaryAgrees(Exec(before + [a]), e)
  {
    RunAllReconciled(before);
    SecondReversalShows(before, a, o);
    e := Exec(before + [a]).orders[o].eventId;
  }

  /**
   * The exact condition on a run: at every moment the summary of every event accounts for exactly the
   * money of its posted, unreversed orders less the payouts, if and only if no reversal of an order
   * already reversed writes entries that do not cancel out.
   */
  lemma ReconciliationExactly(actions: seq<Action>)
    ensures (forall n, e: nat :: 0 <= n <= |actions| ==> SummaryAgrees(Exec(actions[..n]), e))
      <==> NeverReversesTwice(actions)
  {
    if NeverReversesTwice(actions) {
      forall n, e: nat | 0 <= n <= |actions| ensures SummaryAgrees(Exec(actions[..n]), e) {
        NeverTwiceAgrees(actions, n, e);
      }
    } else {
      var n, e := TwiceDisagrees(actions);
    }
  }
}
