/** What every figure of an event's summary counts, told from its orders and payouts alone. */
module FinanceSummary {
  import opened Base
  import opened Ledger
  import opened LedgerProofs
  import opened FinanceProtocol
  import opened FinanceRuns
  import opened FinanceGuarantees
  import opened FinanceReconciliation
  import P = Pricing

  // ----- Figures over the orders of an event ---------------------------------------------------

  /** `figure` of an order and its rows, summed over those of the first `n` orders that belong to the event. */
  function OverOrders(s: Books, e: nat, n: nat, figure: (OrderFacts, seq<Entry>) -> int): int
    requires n <= |s.orders|
  {
    if n == 0 then 0
    else OverOrders(s, e, n - 1, figure)
         + if s.orders[n - 1].eventId == e then figure(s.orders[n - 1], RowsOf(s, n - 1)) else 0
  }

  /** What a weight counts in an order's rows is the figure of that order. */
  predicate FigureMatches(s: Books, o: nat, weight: Entry -> int, figure: (OrderFacts, seq<Entry>) -> int)
    requires o < |s.orders|
  {
    Sum(RowsOf(s, o), weight) == figure(s.orders[o], RowsOf(s, o))
  }

  lemma {:induction false} FiguresByOrder(
      s: Books, e: nat, n: nat, weight: Entry -> int, figure: (OrderFacts, seq<Entry>) -> int)
    requires n <= |s.orders|
    requires forall o: nat :: o < n && s.orders[o].eventId == e ==> FigureMatches(s, o, weight, figure)
    ensures ByOrder(s.orders, s.entries, e, n, weight) == OverOrders(s, e, n, figure)
  {
    if n > 0 {
      FiguresByOrder(s, e, n - 1, weight, figure);
      assert s.orders[n - 1].eventId == e ==> FigureMatches(s, n - 1, weight, figure);
    }
  }

  /** No payout counts towards the figure, so it is made of the orders' rows alone. */
  lemma FigureIsOverOrders(s: Books, e: nat, weight: Entry -> int, figure: (OrderFacts, seq<Entry>) -> int)
    requires Inv(s)
    requires forall x: Entry :: x.kind == Payout ==> weight(x) == 0
    requires forall o: nat :: o < |s.orders| && s.orders[o].eventId == e ==> FigureMatches(s, o, weight, figure)
    ensures Sum(s.entries, InEvent(e, weight)) == OverOrders(s, e, |s.orders|, figure)
  {
    forall k | 0 <= k < |s.entries|
      ensures BelongsToOrder(s.orders, s.entries[k]) && LooseIn(e, weight)(s.entries[k]) == 0
    {
      assert EntryOk(s.orders, s.entries[k]);
    }
    LedgerPartition(s.orders, s.entries, e, weight);
    SumZero(s.entries, LooseIn(e, weight));
    FiguresByOrder(s, e, |s.orders|, weight, figure);
  }

  // ----- The figures of one order ------------------------------------------------------------------

  predicate HasCommission(rows: seq<Entry>) {
    exists k :: 0 <= k < |rows| && rows[k].kind == Commission
  }

  /** The order's accrued commission, if it was posted. */
  function CommissionOf(f: OrderFacts, rows: seq<Entry>): int {
    if HasCommission(rows) && f.accrued.Some? then f.accrued.value.amount else 0
  }

  function SubtotalOf(f: OrderFacts, rows: seq<Entry>): int {
    if rows == [] then 0 else f.subtotal
  }

  function DiscountOf(f: OrderFacts, rows: seq<Entry>): int {
    if rows == [] then 0 else f.discount
  }

  function FeeOf(f: OrderFacts, rows: seq<Entry>): int {
    if rows == [] then 0 else f.fee
  }

  function CostOf(f: OrderFacts, rows: seq<Entry>): int {
    if rows == [] then 0 else f.pspCost
  }

  /** What a posted order leaves the producer: its net price, less the fee it bears and the commission. */
  function ProducerShare(f: OrderFacts, rows: seq<Entry>): int {
    if rows == [] then 0
    else f.subtotal - f.discount - (if f.feeMode == P.Producer then f.fee else 0) - CommissionOf(f, rows)
  }

  function PlatformShare(f: OrderFacts, rows: seq<Entry>): int {
    if rows == [] then 0 else f.fee - f.pspCost
  }

  /** What is left of a share once the order may have been reversed. */
  function DueProducer(f: OrderFacts, rows: seq<Entry>): int {
    if HasRefund(rows) then 0 else ProducerShare(f, rows)
  }

  function DuePlatform(f: OrderFacts, rows: seq<Entry>): int {
    if HasRefund(rows) then 0 else PlatformShare(f, rows)
  }

  function DuePromoter(f: OrderFacts, rows: seq<Entry>): int {
    if HasRefund(rows) then 0 else CommissionOf(f, rows)
  }

  /** What reversing the order took back from the producer. */
  function TakenBack(f: OrderFacts, rows: seq<Entry>): int {
    if HasRefund(rows) then ProducerShare(f, rows) else 0
  }

  lemma CommissionPosted(o: nat, f: OrderFacts, rows: seq<Entry>)
    requires OrderOk(o, f, rows)
    ensures HasCommission(rows) <==> Only(rows, false) != [] && Only(rows, false) == Posting(o, f) && f.accrued.Some?
  {
    var plain := Only(rows, false);
    OnlyMembers(rows, false);
    BaseHasNoCommission(o, f);
    if HasCommission(rows) {
      var k :| 0 <= k < |rows| && rows[k].kind == Commission;
      assert rows[k] in plain;
    }
    if plain == Posting(o, f) && f.accrued.Some? {
      assert plain[|BasePosting(o, f)|] == CommissionPair(o, f)[0];
      assert plain[|BasePosting(o, f)|] in rows;
    }
  }

  lemma BaseHasNoCommission(o: nat, f: OrderFacts)
    ensures forall x :: x in BasePosting(o, f) ==> x.kind != Commission
    ensures f.accrued.None? ==> Posting(o, f) == BasePosting(o, f)
  {
    BaseRanked(o, f);
    forall x | x in BasePosting(o, f) ensures x.kind != Commission {
      var k :| 0 <= k < |BasePosting(o, f)| && BasePosting(o, f)[k] == x;
    }
  }

  lemma BaseAccounts(o: nat, f: OrderFacts)
    ensures Sum(BasePosting(o, f), InAccount(ProducerAccount))
         == f.subtotal - f.discount - if f.feeMode == P.Producer then f.fee else 0
    ensures Sum(BasePosting(o, f), InAccount(PlatformAccount)) == f.fee - f.pspCost
    ensures Sum(BasePosting(o, f), InAccount(PromoterAccount)) == 0
  {
    SumBase(o, f, InAccount(ProducerAccount));
    SumBase(o, f, InAccount(PlatformAccount));
    SumBase(o, f, InAccount(PromoterAccount));
  }

  lemma BaseHeadings(o: nat, f: OrderFacts)
    ensures Sum(BasePosting(o, f), OfKind(Sale)) == f.subtotal
    ensures Sum(BasePosting(o, f), OfKind(Discount)) == 0 - f.discount
    ensures Sum(BasePosting(o, f), OfKind(PspCost)) == 0 - f.pspCost
    ensures Sum(BasePosting(o, f), OfAccountKind(PlatformAccount, Fee)) == f.fee
    ensures Sum(BasePosting(o, f), OfAccountKind(PromoterAccount, Commission)) == 0
  {
    SumBase(o, f, OfKind(Sale));
    SumBase(o, f, OfKind(Discount));
    SumBase(o, f, OfKind(PspCost));
    SumBase(o, f, OfAccountKind(PlatformAccount, Fee));
    SumBase(o, f, OfAccountKind(PromoterAccount, Commission));
  }

  /** The order's own rows, reversals left aside: the base posting, and the pair if the commission was posted. */
  lemma PlainSum(o: nat, f: OrderFacts, rows: seq<Entry>, weight: Entry -> int)
    requires OrderOk(o, f, rows) && rows != []
    ensures Sum(Only(rows, false), weight)
         == Sum(BasePosting(o, f), weight)
            + if HasCommission(rows) && f.accrued.Some? && |CommissionPair(o, f)| == 2
              then weight(CommissionPair(o, f)[0]) + weight(CommissionPair(o, f)[1]) else 0
  {
    CommissionPosted(o, f, rows);
    BaseHasNoCommission(o, f);
    SumPair(o, f, weight);
    SumConcat(BasePosting(o, f), CommissionPair(o, f), weight);
  }

  lemma PlainShares(o: nat, f: OrderFacts, rows: seq<Entry>)
    requires OrderOk(o, f, rows)
    ensures Sum(Only(rows, false), InAccount(ProducerAccount)) == ProducerShare(f, rows)
    ensures Sum(Only(rows, false), InAccount(PlatformAccount)) == PlatformShare(f, rows)
    ensures Sum(Only(rows, false), InAccount(PromoterAccount)) == CommissionOf(f, rows)
  {
    if rows != [] {
      BaseAccounts(o, f);
      PlainSum(o, f, rows, InAccount(ProducerAccount));
      PlainSum(o, f, rows, InAccount(PlatformAccount));
      PlainSum(o, f, rows, InAccount(PromoterAccount));
    }
  }

  lemma PlainHeadings(o: nat, f: OrderFacts, rows: seq<Entry>)
    requires OrderOk(o, f, rows)
    ensures Sum(Only(rows, false), OfKind(Sale)) == SubtotalOf(f, rows)
    ensures Sum(Only(rows, false), OfKind(Discount)) == -DiscountOf(f, rows)
    ensures Sum(Only(rows, false), OfKind(PspCost)) == -CostOf(f, rows)
  {
    if rows != [] {
      BaseHeadings(o, f);
      PlainSum(o, f, rows, OfKind(Sale));
      PlainSum(o, f, rows, OfKind(Discount));
      PlainSum(o, f, rows, OfKind(PspCost));
    }
  }

  lemma PlainFees(o: nat, f: OrderFacts, rows: seq<Entry>)
    requires OrderOk(o, f, rows)
    ensures Sum(Only(rows, false), OfAccountKind(PlatformAccount, Fee)) == FeeOf(f, rows)
    ensures Sum(Only(rows, false), OfAccountKind(PromoterAccount, Commission)) == CommissionOf(f, rows)
  {
    if rows != [] {
      BaseHeadings(o, f);
      PlainSum(o, f, rows, OfAccountKind(PlatformAccount, Fee));
      PlainSum(o, f, rows, OfAccountKind(PromoterAccount, Commission));
    }
  }

  /** A heading that no reversal writes counts what was posted, reversed or not. */
  lemma HeadingOfRows(rows: seq<Entry>, weight: Entry -> int)
    requires forall x: Entry :: x.kind == Refund ==> weight(x) == 0
    ensures Sum(rows, weight) == Sum(Only(rows, false), weight)
  {
    SumOnly(rows, weight);
    OnlyMembers(rows, true);
    SumZero(Only(rows, true), weight);
  }

  /** The negated figure. */
  function Less(figure: (OrderFacts, seq<Entry>) -> int): (OrderFacts, seq<Entry>) -> int {
    (f, rows) => -figure(f, rows)
  }

  lemma {:induction false} OverOrdersLess(s: Books, e: nat, n: nat, figure: (OrderFacts, seq<Entry>) -> int)
    requires n <= |s.orders|
    ensures OverOrders(s, e, n, Less(figure)) == -OverOrders(s, e, n, figure)
  {
    if n > 0 {
      OverOrdersLess(s, e, n - 1, figure);
    }
  }

  lemma OrderHeadings(s: Books, o: nat)
    requires Inv(s) && o < |s.orders|
    ensures FigureMatches(s, o, OfKind(Sale), SubtotalOf)
    ensures FigureMatches(s, o, OfKind(Discount), Less(DiscountOf))
    ensures FigureMatches(s, o, OfKind(PspCost), Less(CostOf))
    ensures FigureMatches(s, o, OfAccountKind(PlatformAccount, Fee), FeeOf)
    ensures FigureMatches(s, o, OfAccountKind(PromoterAccount, Commission), CommissionOf)
  {
    var rows := RowsOf(s, o);
    assert OrderOk(o, s.orders[o], rows);
    PlainHeadings(o, s.orders[o], rows);
    PlainFees(o, s.orders[o], rows);
    HeadingOfRows(rows, OfKind(Sale));
    HeadingOfRows(rows, OfKind(Discount));
    HeadingOfRows(rows, OfKind(PspCost));
    HeadingOfRows(rows, OfAccountKind(PlatformAccount, Fee));
    HeadingOfRows(rows, OfAccountKind(PromoterAccount, Commission));
  }

  // ----- The headings of the summary ---------------------------------------------------------------

  /**
   * In every interleaving the gross sales, discounts, platform fees, PSP costs and commissions of an
   * event's summary are those of exactly the orders that were ever posted, each counted once.
   */
  lemma SummaryFigures(actions: seq<Action>, e: nat)
    ensures var s := Exec(actions); var sum := EventSummary(s.entries, e); var n := |s.orders|;
      && sum.grossSales == OverOrders(s, e, n, SubtotalOf)
      && sum.discount == OverOrders(s, e, n, DiscountOf)
      && sum.platformFee == OverOrders(s, e, n, FeeOf)
      && sum.pspCost == OverOrders(s, e, n, CostOf)
      && sum.commission == OverOrders(s, e, n, CommissionOf)
  {
    EveryRunKeeps(actions);
    var s := Exec(actions);
    var n := |s.orders|;
    forall o: nat | o < n
      ensures FigureMatches(s, o, OfKind(Sale), SubtotalOf)
      ensures FigureMatches(s, o, OfKind(Discount), Less(DiscountOf))
      ensures FigureMatches(s, o, OfKind(PspCost), Less(CostOf))
      ensures FigureMatches(s, o, OfAccountKind(PlatformAccount, Fee), FeeOf)
      ensures FigureMatches(s, o, OfAccountKind(PromoterAccount, Commission), CommissionOf)
    {
      OrderHeadings(s, o);
    }
    FigureIsOverOrders(s, e, OfKind(Sale), SubtotalOf);
    FigureIsOverOrders(s, e, OfKind(Discount), Less(DiscountOf));
    FigureIsOverOrders(s, e, OfKind(PspCost), Less(CostOf));
    FigureIsOverOrders(s, e, OfAccountKind(PlatformAccount, Fee), FeeOf);
    FigureIsOverOrders(s, e, OfAccountKind(PromoterAccount, Commission), CommissionOf);
    OverOrdersLess(s, e, n, DiscountOf);
    OverOrdersLess(s, e, n, CostOf);
    SumEq(s.entries, TypeIn(e, Sale), InEvent(e, OfKind(Sale)));
    SumEq(s.entries, TypeIn(e, Discount), InEvent(e, OfKind(Discount)));
    SumEq(s.entries, AccountTypeIn(e, PlatformAccount, Fee), InEvent(e, OfAccountKind(PlatformAccount, Fee)));
    SumEq(s.entries, TypeIn(e, PspCost), InEvent(e, OfKind(PspCost)));
    SumEq(s.entries, AccountTypeIn(e, PromoterAccount, Commission), InEvent(e, OfAccountKind(PromoterAccount, Commission)));
  }

  // ----- The payables of the summary ------------------------------------------------------------------

  /** What a reversed order still holds on an account: zero, unless its refund was crossed by another call. */
  function LeftOn(a: Account): (OrderFacts, seq<Entry>) -> int {
    (f, rows) => if HasRefund(rows) then Balance(rows, a) else 0
  }

  /** Order by order `whole` is `g` plus `h`, so it is over all orders. */
  lemma {:induction false} SplitOverOrders(
      s: Books, e: nat, n: nat, whole: (OrderFacts, seq<Entry>) -> int,
      g: (OrderFacts, seq<Entry>) -> int, h: (OrderFacts, seq<Entry>) -> int)
    requires n <= |s.orders|
    requires forall f, rows :: whole(f, rows) == g(f, rows) + h(f, rows)
    ensures OverOrders(s, e, n, whole) == OverOrders(s, e, n, g) + OverOrders(s, e, n, h)
  {
    if n > 0 {
      SplitOverOrders(s, e, n - 1, whole, g, h);
    }
  }

  function OnProducer(f: OrderFacts, rows: seq<Entry>): int {
    if HasRefund(rows) then Balance(rows, ProducerAccount) else ProducerShare(f, rows)
  }

  function OnPlatform(f: OrderFacts, rows: seq<Entry>): int {
    if HasRefund(rows) then Balance(rows, PlatformAccount) else PlatformShare(f, rows)
  }

  function OnPromoter(f: OrderFacts, rows: seq<Entry>): int {
    if HasRefund(rows) then Balance(rows, PromoterAccount) else CommissionOf(f, rows)
  }

  function RefundOnProducer(f: OrderFacts, rows: seq<Entry>): int {
    if HasRefund(rows) then Balance(rows, ProducerAccount) - ProducerShare(f, rows) else 0
  }

  predicate PlainSharesHold(f: OrderFacts, rows: seq<Entry>) {
    && Sum(Only(rows, false), InAccount(ProducerAccount)) == ProducerShare(f, rows)
    && Sum(Only(rows, false), InAccount(PlatformAccount)) == PlatformShare(f, rows)
    && Sum(Only(rows, false), InAccount(PromoterAccount)) == CommissionOf(f, rows)
  }

  lemma PlainSharesOf(s: Books, o: nat)
    requires Inv(s) && o < |s.orders|
    ensures PlainSharesHold(s.orders[o], RowsOf(s, o))
  {
    assert OrderOk(o, s.orders[o], RowsOf(s, o));
    PlainShares(o, s.orders[o], RowsOf(s, o));
  }

  lemma BalancesOf(f: OrderFacts, rows: seq<Entry>)
    requires PlainSharesHold(f, rows)
    ensures Balance(rows, ProducerAccount) == OnProducer(f, rows)
    ensures Balance(rows, PlatformAccount) == OnPlatform(f, rows)
    ensures Balance(rows, PromoterAccount) == OnPromoter(f, rows)
  {
    if !HasRefund(rows) {
      NoRefundIsUniform(rows);
    }
  }

  /** The REFUND rows of an account hold its balance less what was posted on it. */
  lemma {:induction false} RefundPart(rows: seq<Entry>, a: Account)
    ensures Sum(rows, OfAccountKind(a, Refund)) == Balance(rows, a) - Sum(Only(rows, false), InAccount(a))
  {
    if rows != [] {
      var n := |rows| - 1;
      RefundPart(rows[..n], a);
      SumWhen(rows[n].kind != Refund, rows[n], InAccount(a));
      SumConcat(Only(rows[..n], false), When(rows[n].kind != Refund, rows[n]), InAccount(a));
    }
  }

  lemma OrderBalances(s: Books, o: nat)
    requires Inv(s) && o < |s.orders|
    ensures FigureMatches(s, o, InAccount(ProducerAccount), OnProducer)
    ensures FigureMatches(s, o, InAccount(PlatformAccount), OnPlatform)
    ensures FigureMatches(s, o, InAccount(PromoterAccount), OnPromoter)
    ensures FigureMatches(s, o, OfAccountKind(ProducerAccount, Refund), RefundOnProducer)
  {
    PlainSharesOf(s, o);
    BalancesOf(s.orders[o], RowsOf(s, o));
    RefundPart(RowsOf(s, o), ProducerAccount);
  }

  /** An account of the event: the figures of its orders, less what was paid out of it. */
  lemma AccountFigure(s: Books, e: nat, a: Account, on: (OrderFacts, seq<Entry>) -> int, due: (OrderFacts, seq<Entry>) -> int)
    requires Inv(s)
    requires forall o: nat :: o < |s.orders| ==> FigureMatches(s, o, InAccount(a), on)
    requires forall f, rows :: on(f, rows) == due(f, rows) + LeftOn(a)(f, rows)
    ensures Sum(s.entries, InEvent(e, InAccount(a)))
         == OverOrders(s, e, |s.orders|, due) + OverOrders(s, e, |s.orders|, LeftOn(a)) - PaidOut(s.entries, e, a)
  {
    AccountByOrder(s, e, a);
    FiguresByOrder(s, e, |s.orders|, InAccount(a), on);
    SplitOverOrders(s, e, |s.orders|, on, due, LeftOn(a));
  }

  /**
   * In every run, each payable told from the order facts: the producer is owed what every posted, unreversed
   * order leaves it, the platform nets its fees less the PSP costs, the promoters are owed the posted
   * commissions, each less its own payouts; and refunded is what the reversed orders had left the producer.
   * What a crossed refund left on an account is all that can be added.
   */
  lemma SummaryPayables(actions: seq<Action>, e: nat)
    ensures var s := Exec(actions); var sum := EventSummary(s.entries, e); var n := |s.orders|;
      && sum.producerPayable == OverOrders(s, e, n, DueProducer) - PaidOut(s.entries, e, ProducerAccount)
           + OverOrders(s, e, n, LeftOn(ProducerAccount))
      && sum.platformNet == OverOrders(s, e, n, DuePlatform) + OverOrders(s, e, n, LeftOn(PlatformAccount))
      && sum.promoterPayable == OverOrders(s, e, n, DuePromoter) - PaidOut(s.entries, e, PromoterAccount)
           + OverOrders(s, e, n, LeftOn(PromoterAccount))
      && sum.refunded == OverOrders(s, e, n, TakenBack) - OverOrders(s, e, n, LeftOn(ProducerAccount))
  {
    EveryRunKeeps(actions);
    var s := Exec(actions);
    forall o: nat | o < |s.orders|
      ensures FigureMatches(s, o, InAccount(ProducerAccount), OnProducer)
      ensures FigureMatches(s, o, InAccount(PlatformAccount), OnPlatform)
      ensures FigureMatches(s, o, InAccount(PromoterAccount), OnPromoter)
    {
      OrderBalances(s, o);
    }
    AccountFigure(s, e, ProducerAccount, OnProducer, DueProducer);
    AccountFigure(s, e, PlatformAccount, OnPlatform, DuePlatform);
    AccountFigure(s, e, PromoterAccount, OnPromoter, DuePromoter);
    AccountByOrder(s, e, PlatformAccount);
    SumEq(s.entries, AccountIn(e, ProducerAccount), InEvent(e, InAccount(ProducerAccount)));
    SumEq(s.entries, AccountIn(e, PlatformAccount), InEvent(e, InAccount(PlatformAccount)));
    SumEq(s.entries, AccountIn(e, PromoterAccount), InEvent(e, InAccount(PromoterAccount)));
    RefundedFigure(s, e);
  }

  lemma RefundedFigure(s: Books, e: nat)
    requires Inv(s)
    ensures EventSummary(s.entries, e).refunded
         == OverOrders(s, e, |s.orders|, TakenBack) - OverOrders(s, e, |s.orders|, LeftOn(ProducerAccount))
  {
    forall o: nat | o < |s.orders| ensures FigureMatches(s, o, OfAccountKind(ProducerAccount, Refund), RefundOnProducer) {
      OrderBalances(s, o);
    }
    FigureIsOverOrders(s, e, OfAccountKind(ProducerAccount, Refund), RefundOnProducer);
    SplitOverOrders(s, e, |s.orders|, RefundOnProducer, Less(TakenBack), LeftOn(ProducerAccount));
    OverOrdersLess(s, e, |s.orders|, TakenBack);
    SumEq(s.entries, AccountTypeIn(e, ProducerAccount, Refund), InEvent(e, OfAccountKind(ProducerAccount, Refund)));
  }

  // ----- Runs without crossed refunds, and without refunds -----------------------------------------------

  /** Every reversed order of the event stands at zero, as RefundZeroes leaves it. */
  ghost predicate ReversedAtZero(s: Books, e: nat) {
    forall o: nat :: o < |s.orders| && s.orders[o].eventId == e && HasRefund(RowsOf(s, o)) ==> AllZero(RowsOf(s, o))
  }

  lemma {:induction false} SameOverOrders(
      s: Books, e: nat, n: nat, g: (OrderFacts, seq<Entry>) -> int, h: (OrderFacts, seq<Entry>) -> int)
    requires n <= |s.orders|
    requires forall o: nat :: o < n && s.orders[o].eventId == e ==> g(s.orders[o], RowsOf(s, o)) == h(s.orders[o], RowsOf(s, o))
    ensures OverOrders(s, e, n, g) == OverOrders(s, e, n, h)
  {
    if n > 0 {
      SameOverOrders(s, e, n - 1, g, h);
    }
  }

  lemma {:induction false} NothingLeft(s: Books, e: nat, n: nat, a: Account)
    requires n <= |s.orders| && ReversedAtZero(s, e)
    ensures OverOrders(s, e, n, LeftOn(a)) == 0
  {
    if n > 0 {
      NothingLeft(s, e, n - 1, a);
    }
  }

  /** When every reversal balanced, nothing is left over and each payable is exactly what its orders come to. */
  lemma BalancedSummary(actions: seq<Action>, e: nat)
    requires ReversedAtZero(Exec(actions), e)
    ensures var s := Exec(actions); var sum := EventSummary(s.entries, e); var n := |s.orders|;
      && sum.producerPayable == OverOrders(s, e, n, DueProducer) - PaidOut(s.entries, e, ProducerAccount)
      && sum.platformNet == OverOrders(s, e, n, DuePlatform)
      && sum.promoterPayable == OverOrders(s, e, n, DuePromoter) - PaidOut(s.entries, e, PromoterAccount)
      && sum.refunded == OverOrders(s, e, n, TakenBack)
  {
    var s := Exec(actions);
    SummaryPayables(actions, e);
    NothingLeft(s, e, |s.orders|, ProducerAccount);
    NothingLeft(s, e, |s.orders|, PlatformAccount);
    NothingLeft(s, e, |s.orders|, PromoterAccount);
  }

  predicate NeverReversed(s: Books, e: nat) {
    forall o: nat :: o < |s.orders| && s.orders[o].eventId == e ==> !HasRefund(RowsOf(s, o))
  }

  lemma {:induction false} NothingTakenBack(s: Books, e: nat, n: nat)
    requires n <= |s.orders| && NeverReversed(s, e)
    ensures OverOrders(s, e, n, TakenBack) == 0
  {
    if n > 0 {
      NothingTakenBack(s, e, n - 1);
    }
  }

  /** In every run that never reversed an order of the event: its three payables, told from the posted orders. */
  lemma UnreversedSummary(actions: seq<Action>, e: nat)
    requires NeverReversed(Exec(actions), e)
    ensures var s := Exec(actions); var sum := EventSummary(s.entries, e); var n := |s.orders|;
      && sum.producerPayable == OverOrders(s, e, n, ProducerShare) - PaidOut(s.entries, e, ProducerAccount)
      && sum.platformNet == OverOrders(s, e, n, PlatformShare)
      && sum.promoterPayable == OverOrders(s, e, n, CommissionOf) - PaidOut(s.entries, e, PromoterAccount)
      && sum.commission == OverOrders(s, e, n, CommissionOf)
      && sum.refunded == 0
  {
    var s := Exec(actions);
    BalancedSummary(actions, e);
    SummaryFigures(actions, e);
    SameOverOrders(s, e, |s.orders|, DueProducer, ProducerShare);
    SameOverOrders(s, e, |s.orders|, DuePlatform, PlatformShare);
    SameOverOrders(s, e, |s.orders|, DuePromoter, CommissionOf);
    NothingTakenBack(s, e, |s.orders|);
  }

  // ----- Promoter by promoter ------------------------------------------------------------------------------

  /** What the event owes the first `n` promoters together. */
  function OwedUpTo(entries: seq<Entry>, e: nat, n: nat): int {
    if n == 0 then 0 else OwedUpTo(entries, e, n - 1) + Owed(entries, e, n - 1)
  }

  lemma {:induction false} OwedUpToPush(entries: seq<Entry>, x: Entry, e: nat, n: nat)
    ensures OwedUpTo(entries + [x], e, n)
         == OwedUpTo(entries, e, n)
            + if x.eventId == e && x.account == PromoterAccount && x.promoterId.Some? && x.promoterId.value < n
              then x.amount else 0
  {
    if n > 0 {
      OwedUpToPush(entries, x, e, n - 1);
      SumPush(entries, x, PromoterIn(e, n - 1));
    }
  }

  lemma {:induction false} OwedUpToNone(e: nat, n: nat)
    ensures OwedUpTo([], e, n) == 0
  {
    if n > 0 {
      OwedUpToNone(e, n - 1);
    }
  }

  /** Every entry on the promoter account names one of the first `n` promoters. */
  predicate PromotersBelow(entries: seq<Entry>, n: nat) {
    forall k :: 0 <= k < |entries| && entries[k].account == PromoterAccount ==>
      entries[k].promoterId.Some? && entries[k].promoterId.value < n
  }

  lemma {:induction false} PayableByPromoter(entries: seq<Entry>, e: nat, n: nat)
    requires PromotersBelow(entries, n)
    ensures EventSummary(entries, e).promoterPayable == OwedUpTo(entries, e, n)
  {
    if entries == [] {
      OwedUpToNone(e, n);
    } else {
      var m := |entries| - 1;
      assert entries == entries[..m] + [entries[m]];
      PayableByPromoter(entries[..m], e, n);
      OwedUpToPush(entries[..m], entries[m], e, n);
    }
  }

  /** In every run every promoter entry names its promoter, so from some number on the bound below is met. */
  lemma {:induction false} PromotersBounded(orders: seq<OrderFacts>, entries: seq<Entry>) returns (n: nat)
    requires EntriesOk(orders, entries)
    ensures PromotersBelow(entries, n)
    decreases entries
  {
    if entries == [] {
      n := 0;
    } else {
      var m := |entries| - 1;
      assert EntryOk(orders, entries[m]);
      n := PromotersBounded(orders, entries[..m]);
      if entries[m].account == PromoterAccount && entries[m].promoterId.value >= n {
        n := entries[m].promoterId.value + 1;
      }
    }
  }

  /** In every run the promoters' payable is what the event owes its promoters, one by one. */
  lemma PromoterPayableIsOwed(actions: seq<Action>, e: nat) returns (n: nat)
    ensures PromotersBelow(Exec(actions).entries, n)
    ensures EventSummary(Exec(actions).entries, e).promoterPayable == OwedUpTo(Exec(actions).entries, e, n)
  {
    EveryRunKeeps(actions);
    n := PromotersBounded(Exec(actions).orders, Exec(actions).entries);
    PayableByPromoter(Exec(actions).entries, e, n);
  }
}
