/** When promoter payouts stay within what was credited, and when a payout overdraws. */
module FinancePayouts {
  import opened Base
  import opened Ledger
  import opened LedgerProofs
  import opened FinanceProtocol
  import opened FinanceRuns
  import opened FinanceRefunds

  // ----- Payouts --------------------------------------------------------------------------------

  function CreditedTo(e: nat, p: nat): Entry -> int {
    (x: Entry) =>
      if x.eventId == e && x.account == PromoterAccount && x.kind == Commission && x.promoterId == Some(p)
      then x.amount else 0
  }

  /** Money registered as paid out, as a positive figure. */
  function PaidTo(e: nat, p: nat): Entry -> int {
    (x: Entry) =>
      if x.eventId == e && x.account == PromoterAccount && x.kind == Payout && x.promoterId == Some(p)
      then -x.amount else 0
  }

  function CreditLessPaid(e: nat, p: nat): Entry -> int {
    (x: Entry) => CreditedTo(e, p)(x) - PaidTo(e, p)(x)
  }

  lemma EntryOwesAtMostCreditLessPaid(orders: seq<OrderFacts>, x: Entry, e: nat, p: nat)
    requires EntryOk(orders, x)
    ensures PromoterIn(e, p)(x) <= CreditedTo(e, p)(x) - PaidTo(e, p)(x)
  {
    if x.account == PromoterAccount {
      match x.orderId
      case None =>
      case Some(o) =>
    }
  }

  /** What is owed is at most what was credited less what was paid: a REFUND only lowers it. */
  lemma OwedIsAtMostCreditLessPaid(s: Books, e: nat, p: nat)
    requires EntriesOk(s.orders, s.entries)
    ensures Owed(s.entries, e, p) <= Sum(s.entries, CreditedTo(e, p)) - Sum(s.entries, PaidTo(e, p))
  {
    forall k | 0 <= k < |s.entries| ensures PromoterIn(e, p)(s.entries[k]) <= CreditLessPaid(e, p)(s.entries[k]) {
      EntryOwesAtMostCreditLessPaid(s.orders, s.entries[k], e, p);
    }
    SumLe(s.entries, PromoterIn(e, p), CreditLessPaid(e, p));
    SumSplit(s.entries, CreditedTo(e, p), CreditLessPaid(e, p), PaidTo(e, p));
  }

  lemma PostTail(entries: seq<Entry>, batch: seq<Entry>) returns (tail: seq<Entry>)
    requires forall k :: 0 <= k < |batch| ==> batch[k].orderId.Some?
    ensures PostAll(entries, batch) == entries + tail && forall x :: x in tail ==> x in batch
  {
    PostGrows(entries, batch);
    var out := PostAll(entries, batch);
    tail := out[|entries|..];
    forall x | x in tail ensures x in batch {
      var k :| 0 <= k < |tail| && tail[k] == x;
      assert out[|entries| + k] == x;
    }
  }

  lemma PostCreditsOnly(orders: seq<OrderFacts>, entries: seq<Entry>, batch: seq<Entry>, e: nat, p: nat)
    requires forall x :: x in batch ==> EntryOk(orders, x) && x.orderId.Some?
    ensures Sum(PostAll(entries, batch), PaidTo(e, p)) == Sum(entries, PaidTo(e, p))
    ensures Sum(PostAll(entries, batch), CreditedTo(e, p)) >= Sum(entries, CreditedTo(e, p))
  {
    var tail := PostTail(entries, batch);
    forall k | 0 <= k < |tail| ensures PaidTo(e, p)(tail[k]) == 0 && CreditedTo(e, p)(tail[k]) >= 0 {
      assert tail[k] in batch;
    }
    SumZero(tail, PaidTo(e, p));
    SumNonNegative(tail, CreditedTo(e, p));
    SumConcat(entries, tail, PaidTo(e, p));
    SumConcat(entries, tail, CreditedTo(e, p));
  }

  lemma WritesOnlyCredit(s: Books, pid: nat, e: nat, p: nat)
    requires Inv(s) && pid in s.jobs
    ensures Sum(Work(s, pid).entries, PaidTo(e, p)) == Sum(s.entries, PaidTo(e, p))
    ensures Sum(Work(s, pid).entries, CreditedTo(e, p)) >= Sum(s.entries, CreditedTo(e, p))
  {
    var job := s.jobs[pid];
    assert JobOk(s.orders, s.entries, job);
    if job.Writing? {
      BatchEntriesOk(s, job.order, job.batch);
      PostCreditsOnly(s.orders, s.entries, job.batch, e, p);
    }
  }

  // ----- What is promised ------------------------------------------------------------------------

  predicate IsPayoutTo(x: Pending, e: nat, p: nat) {
    x.event == e && x.promoter == p
  }

  function PaidBy(x: Pending, e: nat, p: nat): nat {
    if IsPayoutTo(x, e, p) then x.amount else 0
  }

  /** The payouts to the promoter that have passed their check and are still to be written. */
  ghost function PendingSum(payouts: map<nat, Pending>, e: nat, p: nat): nat
    decreases |payouts|
  {
    if payouts == map[] then 0
    else
      var id :| id in payouts;
      PaidBy(payouts[id], e, p) + PendingSum(payouts - {id}, e, p)
  }

  /** Any pending payout may be the one counted first. */
  lemma {:induction false} PendingPick(payouts: map<nat, Pending>, id: nat, e: nat, p: nat)
    requires id in payouts
    ensures PendingSum(payouts, e, p) == PaidBy(payouts[id], e, p) + PendingSum(payouts - {id}, e, p)
    decreases |payouts|
  {
    var first :| first in payouts && PendingSum(payouts, e, p)
      == PaidBy(payouts[first], e, p) + PendingSum(payouts - {first}, e, p);
    if first != id {
      PendingPick(payouts - {first}, id, e, p);
      PendingPick(payouts - {id}, first, e, p);
      assert payouts - {first} - {id} == payouts - {id} - {first};
    }
  }

  lemma PendingAdded(payouts: map<nat, Pending>, id: nat, x: Pending, e: nat, p: nat)
    requires id !in payouts
    ensures PendingSum(payouts[id := x], e, p) == PendingSum(payouts, e, p) + PaidBy(x, e, p)
  {
    PendingPick(payouts[id := x], id, e, p);
    assert payouts[id := x] - {id} == payouts;
  }

  lemma {:induction false} NonePending(payouts: map<nat, Pending>, e: nat, p: nat)
    requires forall id :: id in payouts ==> !IsPayoutTo(payouts[id], e, p)
    ensures PendingSum(payouts, e, p) == 0
    decreases |payouts|
  {
    if payouts != map[] {
      var id :| id in payouts;
      PendingPick(payouts, id, e, p);
      NonePending(payouts - {id}, e, p);
    }
  }

  function Credited(s: Books, e: nat, p: nat): int {
    Sum(s.entries, CreditedTo(e, p))
  }

  function Paid(s: Books, e: nat, p: nat): int {
    Sum(s.entries, PaidTo(e, p))
  }

  /** What was paid and what is about to be. */
  ghost function Promised(s: Books, e: nat, p: nat): int {
    Paid(s, e, p) + PendingSum(s.payouts, e, p)
  }

  // ----- What each action does to it ---------------------------------------------------------------

  lemma WritePayoutStep(s: Books, id: nat)
    requires id in s.payouts
    ensures var x := s.payouts[id];
      Next(s, WritePayout(id))
      == s.(entries := s.entries + [PromoterPayout(x.event, x.promoter, x.amount)], payouts := s.payouts - {id})
  {
  }

  lemma PayoutSums(entries: seq<Entry>, x: Pending, e: nat, p: nat)
    ensures var out := entries + [PromoterPayout(x.event, x.promoter, x.amount)];
      && Sum(out, PaidTo(e, p)) == Sum(entries, PaidTo(e, p)) + PaidBy(x, e, p)
      && Sum(out, CreditedTo(e, p)) == Sum(entries, CreditedTo(e, p))
      && Owed(out, e, p) == Owed(entries, e, p) - PaidBy(x, e, p)
  {
    var row := PromoterPayout(x.event, x.promoter, x.amount);
    SumPush(entries, row, PaidTo(e, p));
    SumPush(entries, row, CreditedTo(e, p));
    SumPush(entries, row, PromoterIn(e, p));
  }

  lemma WritePayoutSums(s: Books, id: nat, e: nat, p: nat)
    requires id in s.payouts
    ensures var t := Next(s, WritePayout(id));
      && t.payouts == s.payouts - {id}
      && Sum(t.entries, PaidTo(e, p)) == Sum(s.entries, PaidTo(e, p)) + PaidBy(s.payouts[id], e, p)
      && Sum(t.entries, CreditedTo(e, p)) == Sum(s.entries, CreditedTo(e, p))
      && Owed(t.entries, e, p) == Owed(s.entries, e, p) - PaidBy(s.payouts[id], e, p)
  {
    WritePayoutStep(s, id);
    PayoutSums(s.entries, s.payouts[id], e, p);
  }

  /** Every action but a step and a payout leaves the ledger and the pending payouts alone. */
  lemma LeavesLedger(s: Books, a: Action)
    requires !IsPay(a) && !a.Step?
    ensures Next(s, a).entries == s.entries && Next(s, a).payouts == s.payouts
  {
    if a.StartRefund? {
      SettleLeavesPayouts(s, a.order, a.chargeback);
    }
  }

  lemma SettleLeavesPayouts(s: Books, o: nat, chargeback: bool)
    ensures Settle(s, o, chargeback).payouts == s.payouts && Settle(s, o, chargeback).entries == s.entries
  {
  }

  lemma WorkLeavesPayouts(s: Books, pid: nat)
    requires pid in s.jobs
    ensures Work(s, pid).payouts == s.payouts
    ensures !s.jobs[pid].Writing? ==> Work(s, pid).entries == s.entries
  {
  }

  lemma ProducerPayoutSums(entries: seq<Entry>, event: nat, amount: int, e: nat, p: nat)
    ensures var out := RegisterExternalPayout(entries, event, amount);
      && Sum(out, PaidTo(e, p)) == Sum(entries, PaidTo(e, p))
      && Sum(out, CreditedTo(e, p)) == Sum(entries, CreditedTo(e, p))
      && Owed(out, e, p) == Owed(entries, e, p)
  {
    var x := Entry(event, None, ProducerAccount, Payout, 0 - Abs(amount), None);
    SumPush(entries, x, PaidTo(e, p));
    SumPush(entries, x, CreditedTo(e, p));
    SumPush(entries, x, PromoterIn(e, p));
  }

  lemma StepKeepsPayouts(s: Books, pid: nat, e: nat, p: nat)
    requires Inv(s) && pid in s.jobs
    ensures var t := Next(s, Step(pid));
      && t.payouts == s.payouts
      && Sum(t.entries, PaidTo(e, p)) == Sum(s.entries, PaidTo(e, p))
      && Sum(t.entries, CreditedTo(e, p)) >= Sum(s.entries, CreditedTo(e, p))
  {
    StepIsWork(s, pid);
    WorkLeavesPayouts(s, pid);
    WritesOnlyCredit(s, pid, e, p);
  }

  /** No other action touches payouts pending or written to the promoter; credit only grows. */
  lemma OtherActionsKeepPayouts(s: Books, a: Action, e: nat, p: nat)
    requires Inv(s) && !a.PayPromoter? && !a.WritePayout? && !a.DropPayout?
    ensures var t := Next(s, a);
      && t.payouts == s.payouts
      && Sum(t.entries, PaidTo(e, p)) == Sum(s.entries, PaidTo(e, p))
      && Sum(t.entries, CreditedTo(e, p)) >= Sum(s.entries, CreditedTo(e, p))
  {
    if a.Step? {
      StepIsWork(s, a.pid);
      if a.pid in s.jobs {
        StepKeepsPayouts(s, a.pid, e, p);
      }
    } else if a.PayProducer? {
      ProducerPayoutSums(s.entries, a.event, a.amount, e, p);
    } else {
      LeavesLedger(s, a);
    }
  }

  predicate StartsPayout(a: Action, e: nat, p: nat) {
    a.PayPromoter? && a.event == e && a.promoter == p
  }

  lemma DropPayoutStep(s: Books, id: nat, e: nat, p: nat)
    ensures var t := Next(s, DropPayout(id));
      Paid(t, e, p) == Paid(s, e, p) && Credited(t, e, p) == Credited(s, e, p) && Promised(t, e, p) <= Promised(s, e, p)
  {
    if id in s.payouts {
      PendingPick(s.payouts, id, e, p);
    } else {
      assert s.payouts - {id} == s.payouts;
    }
  }

  lemma WriteKeepsPromise(s: Books, id: nat, e: nat, p: nat)
    ensures var t := Next(s, WritePayout(id));
      Promised(t, e, p) == Promised(s, e, p) && Credited(t, e, p) == Credited(s, e, p)
  {
    if id in s.payouts {
      PendingPick(s.payouts, id, e, p);
      WritePayoutSums(s, id, e, p);
    }
  }

  /** A payout that passes its check promises its amount; one that does not changes nothing. */
  lemma StartPromises(s: Books, id: nat, event: nat, promoter: nat, amount: int, e: nat, p: nat)
    ensures var a := PayPromoter(id, event, promoter, amount); var t := Next(s, a);
      && Paid(t, e, p) == Paid(s, e, p) && Credited(t, e, p) == Credited(s, e, p)
      && Promised(t, e, p) == Promised(s, e, p) + if Passes(s, a) && StartsPayout(a, e, p) then Abs(amount) else 0
  {
    if Passes(s, PayPromoter(id, event, promoter, amount)) {
      PendingAdded(s.payouts, id, Pending(event, promoter, Abs(amount)), e, p);
    }
  }

  /** Without a new start for the promoter nothing more is promised, and credit never shrinks. */
  lemma PromiseNeverGrows(s: Books, a: Action, e: nat, p: nat)
    requires Inv(s) && !StartsPayout(a, e, p)
    ensures Promised(Next(s, a), e, p) <= Promised(s, e, p) && Credited(Next(s, a), e, p) >= Credited(s, e, p)
  {
    match a {
      case PayPromoter(id, event, promoter, amount) => StartPromises(s, id, event, promoter, amount, e, p);
      case WritePayout(id) => WriteKeepsPromise(s, id, e, p);
      case DropPayout(id) => DropPayoutStep(s, id, e, p);
      case _ => OtherActionsKeepPayouts(s, a, e, p);
    }
  }

  // ----- When the bound holds --------------------------------------------------------------------------

  /** The promoter was paid no more than was ever credited. */
  predicate WithinCredit(s: Books, e: nat, p: nat) {
    Paid(s, e, p) <= Credited(s, e, p)
  }

  predicate StartsNone(more: seq<Action>, e: nat, p: nat) {
    forall k :: 0 <= k < |more| ==> !StartsPayout(more[k], e, p)
  }

  /** However the calls in flight go on, and whatever else starts, the promoter stays within the credit. */
  ghost predicate StaysWithinCredit(s: Books, e: nat, p: nat) {
    forall more :: StartsNone(more, e, p) ==> WithinCredit(ExecFrom(s, more), e, p)
  }

  lemma {:induction false} PromiseKept(s: Books, more: seq<Action>, e: nat, p: nat)
    requires Inv(s) && StartsNone(more, e, p)
    ensures Promised(ExecFrom(s, more), e, p) <= Promised(s, e, p)
    ensures Credited(ExecFrom(s, more), e, p) >= Credited(s, e, p)
    decreases more
  {
    if more != [] {
      var n := |more| - 1;
      PromiseKept(s, more[..n], e, p);
      RunsKeep(s, more[..n]);
      PromiseNeverGrows(ExecFrom(s, more[..n]), more[n], e, p);
    }
  }

  lemma {:induction false} ExecFromFirst(s: Books, a: Action, more: seq<Action>)
    ensures ExecFrom(s, [a] + more) == ExecFrom(Next(s, a), more)
    decreases more
  {
    if more == [] {
      assert [a] + more == [a] && [a][..0] == [];
    } else {
      var n := |more| - 1;
      ExecFromFirst(s, a, more[..n]);
      assert ([a] + more)[..n + 1] == [a] + more[..n];
    }
  }

  /** The run ends with all that was promised paid, and nothing else started for the promoter. */
  ghost predicate PaysAll(s: Books, more: seq<Action>, e: nat, p: nat) {
    && StartsNone(more, e, p)
    && Paid(ExecFrom(s, more), e, p) == Promised(s, e, p)
    && Credited(ExecFrom(s, more), e, p) == Credited(s, e, p)
  }

  lemma WriteThenRest(s: Books, id: nat, rest: seq<Action>, e: nat, p: nat)
    requires PaysAll(Next(s, WritePayout(id)), rest, e, p)
    ensures PaysAll(s, [WritePayout(id)] + rest, e, p)
  {
    WriteKeepsPromise(s, id, e, p);
    ExecFromFirst(s, WritePayout(id), rest);
  }

  lemma WriteLeavesFewer(s: Books, id: nat)
    requires id in s.payouts
    ensures |Next(s, WritePayout(id)).payouts| < |s.payouts|
  {
    WritePayoutStep(s, id);
    assert (s.payouts - {id}).Keys == s.payouts.Keys - {id};
  }

  /** The run that writes every pending payout. */
  lemma {:induction false} WriteEveryPayout(s: Books, e: nat, p: nat) returns (more: seq<Action>)
    ensures PaysAll(s, more, e, p)
    decreases |s.payouts|
  {
    if s.payouts == map[] {
      more := [];
    } else {
      var id :| id in s.payouts;
      WriteLeavesFewer(s, id);
      var rest := WriteEveryPayout(Next(s, WritePayout(id)), e, p);
      WriteThenRest(s, id, rest, e, p);
      more := [WritePayout(id)] + rest;
    }
  }

  /** A state keeps the bound from then on exactly when all that is paid or pending fits what is credited. */
  lemma StaysWithinCreditExactly(s: Books, e: nat, p: nat)
    requires Inv(s)
    ensures StaysWithinCredit(s, e, p) <==> Promised(s, e, p) <= Credited(s, e, p)
  {
    if Promised(s, e, p) <= Credited(s, e, p) {
      forall more | StartsNone(more, e, p) ensures WithinCredit(ExecFrom(s, more), e, p) {
        PromiseKept(s, more, e, p);
      }
    } else {
      var more := WriteEveryPayout(s, e, p);
      assert !WithinCredit(ExecFrom(s, more), e, p);
    }
  }

  /** The payout's own check. */
  predicate Passes(s: Books, a: Action) {
    a.PayPromoter? && a.payId !in s.payouts && 0 < Abs(a.amount) <= Owed(s.entries, a.event, a.promoter)
  }

  /** What the check would have to ask: that the amount fits beside everything already paid or pending. */
  ghost predicate Fits(s: Books, a: Action)
    requires a.PayPromoter?
  {
    Promised(s, a.event, a.promoter) + Abs(a.amount) <= Credited(s, a.event, a.promoter)
  }

  /**
   * For the caller: in any run, a payout that passes its check leaves the promoter within the credit
   * under every continuation without another start exactly when its amount fits beside what is paid
   * and what is pending.
   */
  lemma StartIsSafeExactly(actions: seq<Action>, a: Action)
    requires Passes(Exec(actions), a)
    ensures StaysWithinCredit(Next(Exec(actions), a), a.event, a.promoter) <==> Fits(Exec(actions), a)
  {
    var s := Exec(actions);
    EveryRunKeeps(actions);
    NextKeeps(s, a);
    StartPromises(s, a.payId, a.event, a.promoter, a.amount, a.event, a.promoter);
    StaysWithinCreditExactly(Next(s, a), a.event, a.promoter);
  }

  /** Every payout to the promoter that passed its check in this run also fitted. */
  ghost predicate StartsFit(actions: seq<Action>, e: nat, p: nat) {
    forall n :: 0 <= n < |actions| && StartsPayout(actions[n], e, p) && Passes(Exec(actions[..n]), actions[n]) ==>
      Fits(Exec(actions[..n]), actions[n])
  }

  lemma InitPromisesNothing(e: nat, p: nat)
    ensures Promised(Init, e, p) == 0 && Credited(Init, e, p) == 0
  {
  }

  /** One action: a start that fits, a start that fails its check, or anything else. */
  lemma FittingStep(s: Books, a: Action, e: nat, p: nat)
    requires Inv(s) && Promised(s, e, p) <= Credited(s, e, p)
    requires StartsPayout(a, e, p) && Passes(s, a) ==> Fits(s, a)
    ensures Promised(Next(s, a), e, p) <= Credited(Next(s, a), e, p)
  {
    if StartsPayout(a, e, p) {
      StartPromises(s, a.payId, e, p, a.amount, e, p);
    } else {
      PromiseNeverGrows(s, a, e, p);
    }
  }

  lemma FitsPrefix(actions: seq<Action>, n: nat, e: nat, p: nat)
    requires n <= |actions| && StartsFit(actions, e, p)
    ensures StartsFit(actions[..n], e, p)
  {
    forall k | 0 <= k < n ensures actions[..n][..k] == actions[..k] && actions[..n][k] == actions[k] {
    }
  }

  lemma {:induction false} FittingRunKeepsPromise(actions: seq<Action>, e: nat, p: nat)
    requires StartsFit(actions, e, p)
    ensures Promised(Exec(actions), e, p) <= Credited(Exec(actions), e, p)
    decreases actions
  {
    if actions == [] {
      InitPromisesNothing(e, p);
    } else {
      var n := |actions| - 1;
      FitsPrefix(actions, n, e, p);
      FittingRunKeepsPromise(actions[..n], e, p);
      EveryRunKeeps(actions[..n]);
      FittingStep(Exec(actions[..n]), actions[n], e, p);
    }
  }

  lemma MisfitIsUnsafe(actions: seq<Action>, n: nat, e: nat, p: nat)
    requires n < |actions| && StartsPayout(actions[n], e, p)
    requires Passes(Exec(actions[..n]), actions[n]) && !Fits(Exec(actions[..n]), actions[n])
    ensures !StaysWithinCredit(Exec(actions[..n + 1]), e, p)
  {
    StartIsSafeExactly(actions[..n], actions[n]);
    assert actions[..n + 1][..n] == actions[..n];
  }

  /**
   * The exact condition on a run: at every moment the promoter is within the credit and stays so
   * however the calls in flight go on, if and only if every payout that passed its check also fitted
   * beside what was paid and pending when it did.
   */
  lemma PayoutBoundExactly(actions: seq<Action>, e: nat, p: nat)
    ensures (forall n :: 0 <= n <= |actions| ==> StaysWithinCredit(Exec(actions[..n]), e, p)) <==> StartsFit(actions, e, p)
  {
    if StartsFit(actions, e, p) {
      forall n | 0 <= n <= |actions| ensures StaysWithinCredit(Exec(actions[..n]), e, p) {
        FitsPrefix(actions, n, e, p);
        FittingRunKeepsPromise(actions[..n], e, p);
        EveryRunKeeps(actions[..n]);
        StaysWithinCreditExactly(Exec(actions[..n]), e, p);
      }
    } else {
      var n :| 0 <= n < |actions| && StartsPayout(actions[n], e, p)
        && Passes(Exec(actions[..n]), actions[n]) && !Fits(Exec(actions[..n]), actions[n]);
      MisfitIsUnsafe(actions, n, e, p);
    }
  }

  lemma PayoutsApartPrefix(actions: seq<Action>, n: nat, e: nat, p: nat)
    requires n < |actions| && PayoutsApart(actions, e, p) && StartsPayout(actions[n], e, p)
    ensures NoPayoutTo(Exec(actions[..n]), e, p)
    decreases |actions|
  {
    if n < |actions| - 1 {
      PayoutsApartPrefix(actions[..|actions| - 1], n, e, p);
      assert actions[..|actions| - 1][..n] == actions[..n];
    }
  }

  /** Payouts of one promoter that never overlap all fit: each is checked against all that is owed. */
  lemma ApartPayoutsFit(actions: seq<Action>, e: nat, p: nat)
    requires PayoutsApart(actions, e, p)
    ensures StartsFit(actions, e, p)
  {
    forall n | 0 <= n < |actions| && StartsPayout(actions[n], e, p) && Passes(Exec(actions[..n]), actions[n])
      ensures Fits(Exec(actions[..n]), actions[n])
    {
      PayoutsApartPrefix(actions, n, e, p);
      EveryRunKeeps(actions[..n]);
      NonePending(Exec(actions[..n]).payouts, e, p);
      OwedIsAtMostCreditLessPaid(Exec(actions[..n]), e, p);
    }
  }

  /**
   * However postings, refunds, payouts and crashes interleave, a promoter is never paid more for an
   * event than was ever credited there, as long as each payout also fitted beside the pending ones -
   * as payouts of that promoter that do not overlap always do.
   */
  lemma PayoutBound(actions: seq<Action>, e: nat, p: nat)
    requires StartsFit(actions, e, p) || PayoutsApart(actions, e, p)
    ensures WithinCredit(Exec(actions), e, p)
  {
    if PayoutsApart(actions, e, p) {
      ApartPayoutsFit(actions, e, p);
    }
    FittingRunKeepsPromise(actions, e, p);
  }

  // ----- Overdrawing ----------------------------------------------------------------------------------

  /** The action is the write of a reversal that has entries to write. */
  predicate WritesReversal(s: Books, a: Action) {
    a.Step? && a.pid in s.jobs && s.jobs[a.pid].Writing? && s.jobs[a.pid].batch != [] && Uniform(s.jobs[a.pid].batch, true)
  }

  /**
   * What takes a promoter's balance below zero, exactly: the write of a payout that exceeds what is
   * owed at that moment, or the write of a reversal that takes back more than is owed.
   */
  lemma OverdrawsExactly(actions: seq<Action>, a: Action, e: nat, p: nat)
    requires Owed(Exec(actions).entries, e, p) >= 0
    ensures var s := Exec(actions);
      Owed(Next(s, a).entries, e, p) < 0 <==>
        || (a.WritePayout? && a.payId in s.payouts && IsPayoutTo(s.payouts[a.payId], e, p)
            && s.payouts[a.payId].amount > Owed(s.entries, e, p))
        || (WritesReversal(s, a) && Debit(s.entries, s.jobs[a.pid].batch, e, p) > Owed(s.entries, e, p))
  {
    EveryRunKeeps(actions);
    NextOwed(Exec(actions), a, e, p);
  }

  /** A step moves the balance only when it writes: a reversal by its debit, anything else upwards. */
  lemma StepOwed(s: Books, pid: nat, e: nat, p: nat)
    requires Inv(s) && pid in s.jobs
    ensures WritesReversal(s, Step(pid)) ==>
      Owed(Work(s, pid).entries, e, p) == Owed(s.entries, e, p) - Debit(s.entries, s.jobs[pid].batch, e, p)
    ensures !WritesReversal(s, Step(pid)) ==> Owed(Work(s, pid).entries, e, p) >= Owed(s.entries, e, p)
  {
    StepIsWork(s, pid);
    WorkLeavesPayouts(s, pid);
    if s.jobs[pid].Writing? {
      StepDebits(s, pid, e, p);
    }
  }

  lemma OtherActionsOwe(s: Books, a: Action, e: nat, p: nat)
    requires !a.Step? && !a.WritePayout?
    ensures Owed(Next(s, a).entries, e, p) == Owed(s.entries, e, p)
  {
    if a.PayProducer? {
      ProducerPayoutSums(s.entries, a.event, a.amount, e, p);
    } else if !IsPay(a) {
      LeavesLedger(s, a);
    }
  }

  /** What each action does to the balance owed. */
  lemma NextOwed(s: Books, a: Action, e: nat, p: nat)
    requires Inv(s)
    ensures a.WritePayout? && a.payId in s.payouts ==>
      Owed(Next(s, a).entries, e, p) == Owed(s.entries, e, p) - PaidBy(s.payouts[a.payId], e, p)
    ensures WritesReversal(s, a) ==>
      Owed(Next(s, a).entries, e, p) == Owed(s.entries, e, p) - Debit(s.entries, s.jobs[a.pid].batch, e, p)
    ensures !(a.WritePayout? && a.payId in s.payouts) && !WritesReversal(s, a) ==>
      Owed(Next(s, a).entries, e, p) >= Owed(s.entries, e, p)
  {
    if a.WritePayout? {
      if a.payId in s.payouts {
        WritePayoutSums(s, a.payId, e, p);
      }
    } else if a.Step? {
      StepIsWork(s, a.pid);
      if a.pid in s.jobs {
        StepOwed(s, a.pid, e, p);
      }
    } else {
      OtherActionsOwe(s, a, e, p);
    }
  }

  /** Between two moments neither another payout to the promoter nor a reversal is written. */
  predicate Uncrossed(s: Books, more: seq<Action>, e: nat, p: nat)
    decreases more
  {
    more == []
    || (var n := |more| - 1; var t := ExecFrom(s, more[..n]);
        && Uncrossed(s, more[..n], e, p)
        && !WritesReversal(t, more[n])
        && !(more[n].WritePayout? && more[n].payId in t.payouts && IsPayoutTo(t.payouts[more[n].payId], e, p)))
  }

  lemma {:induction false} UncrossedOwesNoLess(s: Books, more: seq<Action>, e: nat, p: nat)
    requires Inv(s) && Uncrossed(s, more, e, p)
    ensures Owed(ExecFrom(s, more).entries, e, p) >= Owed(s.entries, e, p)
    decreases more
  {
    if more != [] {
      var n := |more| - 1;
      UncrossedOwesNoLess(s, more[..n], e, p);
      RunsKeep(s, more[..n]);
      NextOwed(ExecFrom(s, more[..n]), more[n], e, p);
    }
  }

  /** A payout that nothing crossed between its check and its write never takes the balance below zero. */
  lemma UncrossedPayoutNeverOverdraws(actions: seq<Action>, id: nat, e: nat, p: nat, amount: int, more: seq<Action>)
    requires var s := Exec(actions); id !in s.payouts && 0 < Abs(amount) <= Owed(s.entries, e, p)
    requires var s := Next(Exec(actions), PayPromoter(id, e, p, amount));
      Uncrossed(s, more, e, p) && id in ExecFrom(s, more).payouts && ExecFrom(s, more).payouts[id] == Pending(e, p, Abs(amount))
    ensures var s := Next(Exec(actions), PayPromoter(id, e, p, amount));
      Owed(Next(ExecFrom(s, more), WritePayout(id)).entries, e, p) >= 0
  {
    EveryRunKeeps(actions);
    var s := Next(Exec(actions), PayPromoter(id, e, p, amount));
    NextKeeps(Exec(actions), PayPromoter(id, e, p, amount));
    UncrossedOwesNoLess(s, more, e, p);
    WritePayoutSums(ExecFrom(s, more), id, e, p);
  }

  /** What the batch's entries that are not stored yet take off the promoter's balance. */
  function Debit(entries: seq<Entry>, batch: seq<Entry>, e: nat, p: nat): int {
    0 - Sum(Unstored(entries, batch), PromoterIn(e, p))
  }

  lemma ReversalDebits(entries: seq<Entry>, batch: seq<Entry>, e: nat, p: nat)
    requires DistinctKeys(batch)
    ensures Owed(PostAll(entries, batch), e, p) == Owed(entries, e, p) - Debit(entries, batch, e, p)
  {
    PostWritesUnstored(entries, batch);
    SumConcat(entries, Unstored(entries, batch), PromoterIn(e, p));
  }

  /** A batch of REFUND entries in flight comes from a reversal. */
  lemma RefundsComeFromReversal(s: Books, job: Job)
    requires JobOk(s.orders, s.entries, job) && job.Writing? && job.batch != [] && Uniform(job.batch, true)
    ensures DistinctKeys(job.batch)
  {
    PostingShape(job.order, s.orders[job.order]);
  }

  lemma StepDebits(s: Books, pid: nat, e: nat, p: nat)
    requires Inv(s) && pid in s.jobs && s.jobs[pid].Writing?
    ensures var batch := s.jobs[pid].batch;
      if batch != [] && Uniform(batch, true)
      then Owed(Work(s, pid).entries, e, p) == Owed(s.entries, e, p) - Debit(s.entries, batch, e, p)
      else Owed(Work(s, pid).entries, e, p) >= Owed(s.entries, e, p)
  {
    var batch := s.jobs[pid].batch;
    assert JobOk(s.orders, s.entries, s.jobs[pid]);
    if batch != [] && Uniform(batch, true) {
      RefundsComeFromReversal(s, s.jobs[pid]);
      ReversalDebits(s.entries, batch, e, p);
    } else {
      PostingNeverDebits(s, pid, e, p);
    }
  }

  lemma PostRaisesOwed(orders: seq<OrderFacts>, entries: seq<Entry>, batch: seq<Entry>, e: nat, p: nat)
    requires forall x :: x in batch ==> EntryOk(orders, x) && x.orderId.Some? && x.kind != Refund
    ensures Owed(PostAll(entries, batch), e, p) >= Owed(entries, e, p)
  {
    var tail := PostTail(entries, batch);
    forall k | 0 <= k < |tail| ensures PromoterIn(e, p)(tail[k]) >= 0 {
      assert tail[k] in batch;
    }
    SumNonNegative(tail, PromoterIn(e, p));
    SumConcat(entries, tail, PromoterIn(e, p));
  }

  lemma PostingNeverDebits(s: Books, pid: nat, e: nat, p: nat)
    requires Inv(s) && pid in s.jobs && s.jobs[pid].Writing?
    ensures s.jobs[pid].batch == [] || !Uniform(s.jobs[pid].batch, true) ==>
      Owed(Work(s, pid).entries, e, p) >= Owed(s.entries, e, p)
  {
    var o, batch := s.jobs[pid].order, s.jobs[pid].batch;
    assert JobOk(s.orders, s.entries, s.jobs[pid]);
    if PostBatch(o, s.orders[o], batch) {
      BatchEntriesOk(s, o, batch);
      PostingEntriesOk(s.orders, o);
      PostRaisesOwed(s.orders, s.entries, batch, e, p);
    }
  }

  // ----- Two overlapping payouts, concretely -------------------------------------------------------

  /** A promoter is owed 100 cents and two payouts of 100 have both passed their check. */
  const TwoPayouts := Books(
    [AccruedOrder], [SaleRow] + CommissionRows, map[], map[1 := Pending(0, 7, 100), 2 := Pending(0, 7, 100)])

  lemma CommissionOwed()
    ensures var entries := [SaleRow] + CommissionRows;
      Owed(entries, 0, 7) == 100 && Sum(entries, CreditedTo(0, 7)) == 100 && Sum(entries, PaidTo(0, 7)) == 0
  {
    var one, two := [SaleRow], [SaleRow] + [CommissionRows[0]];
    assert [SaleRow] + CommissionRows == two + [CommissionRows[1]];
    SumWhen(true, SaleRow, PromoterIn(0, 7));
    SumWhen(true, SaleRow, CreditedTo(0, 7));
    SumWhen(true, SaleRow, PaidTo(0, 7));
    SumPush(one, CommissionRows[0], PromoterIn(0, 7));
    SumPush(one, CommissionRows[0], CreditedTo(0, 7));
    SumPush(one, CommissionRows[0], PaidTo(0, 7));
    SumPush(two, CommissionRows[1], PromoterIn(0, 7));
    SumPush(two, CommissionRows[1], CreditedTo(0, 7));
    SumPush(two, CommissionRows[1], PaidTo(0, 7));
  }

  lemma PayPromoterStep(s: Books, id: nat, e: nat, p: nat, amount: nat)
    requires id !in s.payouts && 0 < amount <= Owed(s.entries, e, p)
    ensures Next(s, PayPromoter(id, e, p, amount)) == s.(payouts := s.payouts[id := Pending(e, p, amount)])
  {
  }

  lemma TwoPayoutsReachable() returns (actions: seq<Action>)
    ensures Exec(actions) == TwoPayouts
  {
    actions := CommissionPostedReachable();
    CommissionOwed();
    var s := Books([AccruedOrder], [SaleRow] + CommissionRows, map[], map[]);
    PayPromoterStep(s, 1, 0, 7, 100);
    actions := Then(s, actions, PayPromoter(1, 0, 7, 100));
    var s1 := s.(payouts := map[1 := Pending(0, 7, 100)]);
    assert s.payouts[1 := Pending(0, 7, 100)] == s1.payouts;
    PayPromoterStep(s1, 2, 0, 7, 100);
    actions := Then(s1, actions, PayPromoter(2, 0, 7, 100));
    assert s1.payouts[2 := Pending(0, 7, 100)] == TwoPayouts.payouts;
  }

  /**
   * Two payouts of all that is owed, the second checked before the first is written: both pass, the
   * second does not fit, and the promoter is paid twice what was ever credited.
   */
  lemma OverlappingPayoutsBreakIt()
    ensures exists actions :: var entries := Exec(actions).entries;
      && Sum(entries, PaidTo(0, 7)) == 2 * Sum(entries, CreditedTo(0, 7)) == 200
      && Owed(entries, 0, 7) == -100
  {
    var actions := TwoPayoutsReachable();
    CommissionOwed();
    WritePayoutSums(TwoPayouts, 1, 0, 7);
    actions := Then(TwoPayouts, actions, WritePayout(1));
    var s := Next(TwoPayouts, WritePayout(1));
    assert 2 in s.payouts && s.payouts[2] == Pending(0, 7, 100);
    WritePayoutSums(s, 2, 0, 7);
    actions := Then(s, actions, WritePayout(2));
    var entries := Exec(actions).entries;
    assert Sum(entries, PaidTo(0, 7)) == 200 && Sum(entries, CreditedTo(0, 7)) == 100 && Owed(entries, 0, 7) == -100;
  }
}
