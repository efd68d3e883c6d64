/** The money theorems: conservation, reversal to zero, reconciliation and the payout bound. */
module FinanceGuarantees {
  import opened Base
  import opened Ledger
  import opened LedgerProofs
  import opened FinanceProtocol
  import opened FinanceRuns
  import S = SalesModel
  import P = Pricing
  import PricingProofs

  // ----- Order conservation -------------------------------------------------------------------

  /**
   * In every run, however its calls interleave, retry and crash, the rows of a posted order with
   * no REFUND row sum to exactly its total less the PSP cost.
   */
  lemma OrderConservation(actions: seq<Action>, o: nat)
    requires var s := Exec(actions);
      o < |s.orders| && Rows(s.entries, o) != [] && !HasRefund(Rows(s.entries, o))
    ensures var s := Exec(actions);
      Sum(Rows(s.entries, o), Amount()) == s.orders[o].total - s.orders[o].pspCost
  {
    EveryRunKeeps(actions);
    UnreversedOrderConserves(Exec(actions), o);
  }

  lemma UnreversedOrderConserves(s: Books, o: nat)
    requires Inv(s) && o < |s.orders| && Rows(s.entries, o) != [] && !HasRefund(Rows(s.entries, o))
    ensures Sum(Rows(s.entries, o), Amount()) == s.orders[o].total - s.orders[o].pspCost
    ensures Rows(s.entries, o) == BasePosting(o, s.orders[o]) || Rows(s.entries, o) == Posting(o, s.orders[o])
  {
    assert OrderOk(o, s.orders[o], Rows(s.entries, o));
    NoRefundIsUniform(Rows(s.entries, o));
    PostingConserves(o, s.orders[o]);
  }

  /** The ledger facts of an order placed from an accepted checkout. */
  function FactsOf(event: P.CatalogEvent, p: P.Priced, pspCost: nat): OrderFacts
    requires p.subtotalCents >= 0 && p.discountCents >= 0 && p.feeCents >= 0
  {
    OrderFacts(event.id, S.AwaitingPayment, p.subtotalCents, p.discountCents, p.feeCents, p.feeMode, p.totalCents,
               pspCost, None)
  }

  predicate PostedInFull(s: Books, event: P.CatalogEvent, p: P.Priced, pspCost: nat) {
    && p.subtotalCents >= 0 && p.discountCents >= 0 && p.feeCents >= 0
    && var f := FactsOf(event, p, pspCost);
    && Next(s, PlaceOrder(f)).orders == s.orders + [f]
    && Sum(Posting(|s.orders|, f), Amount()) == p.totalCents - pspCost
  }

  lemma AgreeingAmountsPostInFull(s: Books, event: P.CatalogEvent, p: P.Priced, tickets: int, pspCost: nat)
    requires PricingProofs.AmountsAgree(p, tickets)
    ensures PostedInFull(s, event, p, pspCost)
  {
    SumNonNegative(p.items, P.Price());
    PostingConserves(|s.orders|, FactsOf(event, p, pspCost));
  }

  /** Every accepted checkout can be placed, and its posting will carry exactly what the buyer was charged. */
  lemma CheckoutIsPostedInFull(
      s: Books, c: P.Catalog, event: Option<P.CatalogEvent>, req: P.Request, now: int, pspCost: nat)
    requires P.PriceCheckout(c, event, req, now).Ok?
    ensures PostedInFull(s, event.value, P.PriceCheckout(c, event, req, now).value, pspCost)
  {
    var p := P.PriceCheckout(c, event, req, now).value;
    PricingProofs.AcceptedCheckoutAgrees(c, event, req, now);
    AgreeingAmountsPostInFull(s, event.value, p, Sum(p.items, PricingProofs.TicketPrice()), pspCost);
  }

  // ----- Reversal to zero --------------------------------------------------------------------------

  /** A refund call that runs from start to end without interruption. */
  function RefundCall(s: Books, pid: nat, o: nat, chargeback: bool): Books {
    Next(Next(Next(s, StartRefund(pid, o, chargeback)), Step(pid)), Step(pid))
  }

  function RowsOf(s: Books, o: nat): seq<Entry> {
    Rows(s.entries, o)
  }

  lemma StepsOfRefund(s: Books, pid: nat, o: nat)
    requires pid in s.jobs && s.jobs[pid] == ReadingRows(o)
    ensures Next(Next(s, Step(pid)), Step(pid)) == Finish(s.(entries := ReverseForOrder(s.entries, o)), pid)
  {
    var s2 := Next(s, Step(pid));
    assert s2 == Begin(s, pid, Writing(o, Reversal(Rows(s.entries, o))));
    assert Finish(s2, pid).jobs == Finish(s, pid).jobs;
  }

  lemma SettleLeaves(s: Books, o: nat, chargeback: bool)
    ensures Settle(s, o, chargeback).entries == s.entries && Settle(s, o, chargeback).jobs == s.jobs
  {
  }

  lemma RefundCallEffect(s: Books, pid: nat, o: nat, chargeback: bool)
    requires o < |s.orders| && pid !in s.jobs
    ensures var t := RefundCall(s, pid, o, chargeback);
      && t.jobs == s.jobs
      && t.orders == Settle(s, o, chargeback).orders
      && t.entries == ReverseForOrder(s.entries, o)
  {
    SettleLeaves(s, o, chargeback);
    var s0 := Settle(s, o, chargeback);
    var s1 := Begin(s0, pid, ReadingRows(o));
    StepsOfRefund(s1, pid, o);
    assert RefundCall(s, pid, o, chargeback) == Next(Next(s1, Step(pid)), Step(pid));
    assert s1.jobs - {pid} == s.jobs;
  }

  /**
   * Reached by any run, an order that was PAID and carries no REFUND row comes out of a refund
   * call ended, with every account and its promoter's balance at zero.
   */
  lemma RefundZeroes(actions: seq<Action>, pid: nat, o: nat, chargeback: bool)
    requires var s := Exec(actions);
      o < |s.orders| && pid !in s.jobs && WasPaid(s.orders[o].status) && !HasRefund(RowsOf(s, o))
    ensures var t := RefundCall(Exec(actions), pid, o, chargeback);
      o < |t.orders| && Ended(t.orders[o].status) && AllZero(RowsOf(t, o))
  {
    EveryRunKeeps(actions);
    var s := Exec(actions);
    RefundCallEffect(s, pid, o, chargeback);
    assert OrderOk(o, s.orders[o], RowsOf(s, o));
    var only := OrderHasOnePromoter(s, o);
    RowsOfOrder(s.entries, o);
    ReversalIsRefundBatch(s, o);
    PostByOrder(s.entries, Reversal(RowsOf(s, o)), o, o);
    ReversalZeroes(RowsOf(s, o), o, only);
  }

  /** No call in flight has read order `o` as PAID and is about to store its accrual. */
  predicate NoAccrual(s: Books, o: nat) {
    forall pid :: pid in s.jobs ==> !(s.jobs[pid].Accruing? && s.jobs[pid].order == o)
  }

  /** Whatever else happens, the job will not write a row of order `o`. */
  predicate Harmless(s: Books, job: Job, o: nat)
    requires o < |s.orders|
  {
    job.order != o
    || match job
       case Writing(_, batch) => AllStored(RowsOf(s, o), batch)
       case ReadingCommission(_) =>
         AllStored(RowsOf(s, o), Posting(o, s.orders[o])) && (s.orders[o].accrued.None? ==> NoAccrual(s, o))
       case _ => true
  }

  /** No call in flight will still write a row of order `o`. */
  predicate Undisturbed(s: Books, o: nat)
    requires o < |s.orders|
  {
    forall pid :: pid in s.jobs ==> Harmless(s, s.jobs[pid], o)
  }

  ghost predicate Zeroed(s: Books, o: nat) {
    Inv(s) && o < |s.orders| && Ended(s.orders[o].status) && AllZero(RowsOf(s, o))
  }

  lemma NothingToReverse(rows: seq<Entry>)
    requires AllZero(rows)
    ensures Reversal(rows) == []
  {
    if rows != [] {
      ZeroHasNothingToReverse(rows, Accounts(rows));
    }
  }

  lemma StoredLocally(s: Books, o: nat, batch: seq<Entry>)
    requires OfOrder(batch, o) && AllStored(RowsOf(s, o), batch)
    ensures PostAll(s.entries, batch) == s.entries
  {
    forall k | 0 <= k < |batch| ensures Clashes(s.entries, batch[k]) {
      ClashIsLocal(s.entries, batch[k], o);
    }
    PostStored(s.entries, batch);
  }

  /** A job that may start, or that a reversal of zeroed rows becomes. */
  predicate SafeJob(job: Job, o: nat, rows: seq<Entry>) {
    job.order != o || job.ReadingRows? || (job.Writing? && AllStored(rows, job.batch))
  }

  lemma StaysUndisturbed(s: Books, t: Books, o: nat)
    requires o < |s.orders| && o < |t.orders| && Undisturbed(s, o)
    requires t.orders[o] == s.orders[o] && RowsOf(t, o) == RowsOf(s, o)
    requires forall pid :: pid in t.jobs ==>
      (pid in s.jobs && t.jobs[pid] == s.jobs[pid]) || SafeJob(t.jobs[pid], o, RowsOf(s, o))
    ensures Undisturbed(t, o)
  {
    assert NoAccrual(s, o) ==> NoAccrual(t, o);
    forall pid | pid in t.jobs ensures Harmless(t, t.jobs[pid], o) {
      assert pid in s.jobs ==> Harmless(s, s.jobs[pid], o);
    }
  }

  lemma LateAccrualIsHarmless(s: Books, pid: nat, o: nat)
    requires Zeroed(s, o) && Undisturbed(s, o) && pid in s.jobs && s.jobs[pid].Accruing? && s.jobs[pid].order == o
    ensures RowsOf(Work(s, pid), o) == RowsOf(s, o) && Undisturbed(Work(s, pid), o)
  {
    var t := Work(s, pid);
    assert Harmless(s, s.jobs[pid], o);
    assert !NoAccrual(s, o);
    forall p | p in t.jobs ensures Harmless(t, t.jobs[p], o) {
      assert Harmless(s, s.jobs[p], o);
    }
  }

  lemma HarmlessLeavesRows(s: Books, pid: nat, o: nat)
    requires Inv(s) && o < |s.orders| && pid in s.jobs && Harmless(s, s.jobs[pid], o)
    ensures RowsOf(Work(s, pid), o) == RowsOf(s, o)
  {
    var job := s.jobs[pid];
    assert JobOk(s.orders, s.entries, job);
    if job.Writing? {
      BatchEntriesOk(s, job.order, job.batch);
      if job.order == o {
        StoredLocally(s, o, job.batch);
      } else {
        PostByOrder(s.entries, job.batch, job.order, o);
      }
    }
  }

  /** Whatever a call of the zeroed order goes on to, unless it accrues, is safe. */
  lemma WorkLeavesSafeJobs(s: Books, pid: nat, o: nat)
    requires Zeroed(s, o) && pid in s.jobs && Harmless(s, s.jobs[pid], o)
    requires !(s.jobs[pid].Accruing? && s.jobs[pid].order == o)
    ensures var t := Work(s, pid);
      && o < |t.orders| && t.orders[o] == s.orders[o]
      && forall p :: p in t.jobs ==> (p in s.jobs && t.jobs[p] == s.jobs[p]) || SafeJob(t.jobs[p], o, RowsOf(s, o))
  {
    assert JobOk(s.orders, s.entries, s.jobs[pid]);
    if s.jobs[pid].ReadingRows? {
      NothingToReverse(RowsOf(s, o));
    }
  }

  lemma UndisturbedWork(s: Books, pid: nat, o: nat)
    requires Zeroed(s, o) && Undisturbed(s, o) && pid in s.jobs
    ensures RowsOf(Work(s, pid), o) == RowsOf(s, o) && Undisturbed(Work(s, pid), o)
  {
    var job := s.jobs[pid];
    assert Harmless(s, job, o);
    if job.Accruing? && job.order == o {
      LateAccrualIsHarmless(s, pid, o);
    } else {
      HarmlessLeavesRows(s, pid, o);
      WorkLeavesSafeJobs(s, pid, o);
      StaysUndisturbed(s, Work(s, pid), o);
    }
  }

  lemma PayLeaves(s: Books, a: Action, o: nat)
    requires IsPay(a)
    ensures Next(s, a).orders == s.orders && Next(s, a).jobs == s.jobs && RowsOf(Next(s, a), o) == RowsOf(s, o)
  {
    var x := PayAppends(s, a);
    RowsPush(s.entries, x, o);
  }

  lemma OrderActionsLeave(s: Books, a: Action, o: nat)
    requires o < |s.orders| && Ended(s.orders[o].status) && (a.PlaceOrder? || a.MarkPaid? || a.Expire? || a.Crash?)
    ensures var t := Next(s, a);
      && o < |t.orders| && t.orders[o] == s.orders[o] && t.entries == s.entries
      && (forall pid :: pid in t.jobs ==> pid in s.jobs && t.jobs[pid] == s.jobs[pid])
  {
  }

  lemma StartsLeave(s: Books, a: Action, o: nat)
    requires o < |s.orders| && Ended(s.orders[o].status) && (a.StartAccrual? || a.StartPost? || a.StartRefund?)
    ensures var t := Next(s, a);
      && o < |t.orders| && t.orders[o] == s.orders[o] && t.entries == s.entries
      && (forall pid :: pid in t.jobs ==>
            (pid in s.jobs && t.jobs[pid] == s.jobs[pid]) || SafeJob(t.jobs[pid], o, RowsOf(s, o)))
  {
  }

  /** Once an order has ended, no new accrual or posting of it starts and its facts stand. */
  lemma OtherActionsLeave(s: Books, a: Action, o: nat)
    requires o < |s.orders| && Ended(s.orders[o].status) && !a.Step?
    ensures var t := Next(s, a);
      && o < |t.orders| && t.orders[o] == s.orders[o] && RowsOf(t, o) == RowsOf(s, o)
      && (forall pid :: pid in t.jobs ==>
            (pid in s.jobs && t.jobs[pid] == s.jobs[pid]) || SafeJob(t.jobs[pid], o, RowsOf(s, o)))
  {
    if IsPay(a) {
      PayLeaves(s, a, o);
    } else if a.StartAccrual? || a.StartPost? || a.StartRefund? {
      StartsLeave(s, a, o);
    } else {
      OrderActionsLeave(s, a, o);
    }
  }

  lemma EndedStays(s: Books, a: Action, o: nat)
    requires o < |s.orders| && Ended(s.orders[o].status)
    ensures o < |Next(s, a).orders| && Ended(Next(s, a).orders[o].status)
  {
  }

  lemma ZeroedWorks(s: Books, pid: nat, o: nat)
    requires Zeroed(s, o) && Undisturbed(s, o) && pid in s.jobs
    ensures Zeroed(Work(s, pid), o) && RowsOf(Work(s, pid), o) == RowsOf(s, o) && Undisturbed(Work(s, pid), o)
  {
    WorkKeeps(s, pid);
    UndisturbedWork(s, pid, o);
    EndedStays(s, Step(pid), o);
    StepIsWork(s, pid);
  }

  lemma ZeroedSits(s: Books, a: Action, o: nat)
    requires Zeroed(s, o) && Undisturbed(s, o) && !a.Step?
    ensures Zeroed(Next(s, a), o) && RowsOf(Next(s, a), o) == RowsOf(s, o) && Undisturbed(Next(s, a), o)
  {
    NextKeeps(s, a);
    OtherActionsLeave(s, a, o);
    StaysUndisturbed(s, Next(s, a), o);
  }

  lemma ZeroedStays(s: Books, a: Action, o: nat)
    requires Zeroed(s, o) && Undisturbed(s, o)
    ensures Zeroed(Next(s, a), o) && RowsOf(Next(s, a), o) == RowsOf(s, o) && Undisturbed(Next(s, a), o)
  {
    if a.Step? {
      StepIsWork(s, a.pid);
      if a.pid in s.jobs {
        ZeroedWorks(s, a.pid, o);
      }
    } else {
      ZeroedSits(s, a, o);
    }
  }

  lemma {:induction false} ZeroedForever(s: Books, actions: seq<Action>, o: nat)
    requires Zeroed(s, o) && Undisturbed(s, o)
    ensures Zeroed(ExecFrom(s, actions), o) && RowsOf(ExecFrom(s, actions), o) == RowsOf(s, o)
    ensures Undisturbed(ExecFrom(s, actions), o)
    decreases actions
  {
    if actions != [] {
      ZeroedForever(s, actions[..|actions| - 1], o);
      ZeroedStays(ExecFrom(s, actions[..|actions| - 1]), actions[|actions| - 1], o);
    }
  }
}
