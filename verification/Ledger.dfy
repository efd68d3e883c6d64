/** The append-only ledger: entries, the unique key per order, postings and reversals. */
module Ledger {
  import opened Base
  import S = SalesModel
  import P = Pricing

  datatype Account = ProducerAccount | PlatformAccount | PromoterAccount

  datatype EntryType = Sale | Discount | Fee | PspCost | Commission | Refund | Payout | Adjustment

  datatype Entry = Entry(
    eventId: nat, orderId: Option<nat>, account: Account, kind: EntryType, amount: int, promoterId: Option<nat>)

  /** The stored facts about an order the ledger reads; `accrued` is its unique commission accrual. */
  datatype OrderFacts = OrderFacts(
    eventId: nat, status: S.OrderStatus, subtotal: nat, discount: nat, fee: nat, feeMode: P.FeeMode, total: int,
    pspCost: nat, accrued: Option<Accrual>)

  datatype Accrual = Accrual(promoterId: nat, amount: nat)

  /** The amounts of an order fit together, as createOrder computes them. */
  predicate AmountsAgree(f: OrderFacts) {
    f.total == f.subtotal - f.discount + if f.feeMode == P.Buyer then f.fee else 0
  }

  // ----- Posting under the unique key (order, account, type) ---------------------------------

  predicate SameKey(a: Entry, b: Entry) {
    a.orderId.Some? && a.orderId == b.orderId && a.account == b.account && a.kind == b.kind
  }

  predicate Clashes(entries: seq<Entry>, e: Entry) {
    exists k :: 0 <= k < |entries| && SameKey(entries[k], e)
  }

  function PostOne(entries: seq<Entry>, e: Entry): seq<Entry> {
    if Clashes(entries, e) then entries else entries + [e]
  }

  function PostAll(entries: seq<Entry>, batch: seq<Entry>): seq<Entry> {
    if batch == [] then entries
    else PostOne(PostAll(entries, batch[..|batch| - 1]), batch[|batch| - 1])
  }

  // ----- What a paid order posts ----------------------------------------------------------------

  function When(b: bool, e: Entry): seq<Entry> {
    if b then [e] else []
  }

  function OrderEntry(o: nat, f: OrderFacts, account: Account, kind: EntryType, amount: int): Entry {
    Entry(f.eventId, Some(o), account, kind, amount, None)
  }

  /** The entries that do not depend on a commission. */
  function BasePosting(o: nat, f: OrderFacts): seq<Entry> {
    [OrderEntry(o, f, ProducerAccount, Sale, f.subtotal)]
    + When(f.discount > 0, OrderEntry(o, f, ProducerAccount, Discount, 0 - f.discount))
    + When(f.fee > 0, OrderEntry(o, f, PlatformAccount, Fee, f.fee))
    + When(f.fee > 0 && f.feeMode == P.Producer, OrderEntry(o, f, ProducerAccount, Fee, 0 - f.fee))
    + When(f.pspCost > 0, OrderEntry(o, f, PlatformAccount, PspCost, 0 - f.pspCost))
  }

  function CommissionPair(o: nat, f: OrderFacts): seq<Entry> {
    match f.accrued
    case None => []
    case Some(a) =>
      if a.amount > 0 then
        [OrderEntry(o, f, ProducerAccount, Commission, 0 - a.amount).(promoterId := Some(a.promoterId)),
         OrderEntry(o, f, PromoterAccount, Commission, a.amount).(promoterId := Some(a.promoterId))]
      else []
  }

  function Posting(o: nat, f: OrderFacts): seq<Entry> {
    BasePosting(o, f) + CommissionPair(o, f)
  }

  // ----- Reversal ------------------------------------------------------------------------------------

  function InAccount(a: Account): Entry -> int {
    (e: Entry) => if e.account == a then e.amount else 0
  }

  function Balance(rows: seq<Entry>, a: Account): int {
    Sum(rows, InAccount(a))
  }

  /** The accounts of an order in the order of their first entry: the keys of the balance Map. */
  function Accounts(rows: seq<Entry>): seq<Account> {
    if rows == [] then []
    else
      var n := |rows| - 1;
      var rest := Accounts(rows[..n]);
      if rows[n].account in rest then rest else rest + [rows[n].account]
  }

  /** The promoter remembered for an account: that of its last entry carrying one. */
  function LastPromoter(rows: seq<Entry>, a: Account): Option<nat> {
    if rows == [] then None
    else
      var n := |rows| - 1;
      if rows[n].account == a && rows[n].promoterId.Some? then rows[n].promoterId else LastPromoter(rows[..n], a)
  }

  /** The REFUND entry that brings one account of the rows to zero; none when it already is. */
  function Compensation(rows: seq<Entry>, a: Account): seq<Entry>
    requires rows != []
  {
    var balance := Balance(rows, a);
    When(balance != 0, Entry(rows[0].eventId, rows[0].orderId, a, Refund, -balance, LastPromoter(rows, a)))
  }

  function ReversalOf(rows: seq<Entry>, accounts: seq<Account>): seq<Entry>
    requires rows != []
    decreases accounts
  {
    if accounts == [] then []
    else
      var n := |accounts| - 1;
      ReversalOf(rows, accounts[..n]) + Compensation(rows, accounts[n])
  }

  /** One compensating entry per account with a balance; none when already reversed or never posted. */
  function Reversal(rows: seq<Entry>): seq<Entry> {
    if rows == [] || HasRefund(rows) then [] else ReversalOf(rows, Accounts(rows))
  }

  predicate HasRefund(rows: seq<Entry>) {
    exists k :: 0 <= k < |rows| && rows[k].kind == Refund
  }

  function Rows(entries: seq<Entry>, o: nat): seq<Entry> {
    if entries == [] then []
    else
      var n := |entries| - 1;
      Rows(entries[..n], o) + When(entries[n].orderId == Some(o), entries[n])
  }

  // ----- The service calls on orders and entries --------------------------------------------------------

  function PostForPaidOrder(orders: seq<OrderFacts>, entries: seq<Entry>, o: nat): seq<Entry> {
    if o < |orders| && orders[o].status == S.Paid then PostAll(entries, Posting(o, orders[o])) else entries
  }

  function ReverseForOrder(entries: seq<Entry>, o: nat): seq<Entry> {
    PostAll(entries, Reversal(Rows(entries, o)))
  }

  function PromoterIn(e: nat, p: nat): Entry -> int {
    (x: Entry) => if x.eventId == e && x.account == PromoterAccount && x.promoterId == Some(p) then x.amount else 0
  }

  /** What the event owes the promoter: accrued, less reversed, less paid out. */
  function Owed(entries: seq<Entry>, e: nat, p: nat): int {
    Sum(entries, PromoterIn(e, p))
  }

  function Abs(n: int): nat {
    if n < 0 then -n else n
  }

  function PromoterPayout(e: nat, p: nat, amount: nat): Entry {
    Entry(e, None, PromoterAccount, Payout, 0 - amount, Some(p))
  }

  /** None when the amount is zero or above the promoter's outstanding balance. */
  function RegisterPromoterPayout(entries: seq<Entry>, e: nat, p: nat, amount: int): Option<seq<Entry>> {
    if Abs(amount) <= 0 || Abs(amount) > Owed(entries, e, p) then None
    else Some(entries + [PromoterPayout(e, p, Abs(amount))])
  }

  function RegisterExternalPayout(entries: seq<Entry>, e: nat, amount: int): seq<Entry> {
    entries + [Entry(e, None, ProducerAccount, Payout, 0 - Abs(amount), None)]
  }

  // ----- The event summary -----------------------------------------------------------------------------------

  function TypeIn(e: nat, kind: EntryType): Entry -> int {
    (x: Entry) => if x.eventId == e && x.kind == kind then x.amount else 0
  }

  function AccountIn(e: nat, a: Account): Entry -> int {
    (x: Entry) => if x.eventId == e && x.account == a then x.amount else 0
  }

  function AccountTypeIn(e: nat, a: Account, kind: EntryType): Entry -> int {
    (x: Entry) => if x.eventId == e && x.account == a && x.kind == kind then x.amount else 0
  }

  datatype Summary = Summary(
    grossSales: int, discount: int, platformFee: int, pspCost: int, commission: int, refunded: int,
    producerPayable: int, platformNet: int, promoterPayable: int, payouts: int)

  function EventSummary(entries: seq<Entry>, e: nat): Summary {
    Summary(
      Sum(entries, TypeIn(e, Sale)),
      -Sum(entries, TypeIn(e, Discount)),
      Sum(entries, AccountTypeIn(e, PlatformAccount, Fee)),
      -Sum(entries, TypeIn(e, PspCost)),
      Sum(entries, AccountTypeIn(e, PromoterAccount, Commission)),
      -Sum(entries, AccountTypeIn(e, ProducerAccount, Refund)),
      Sum(entries, AccountIn(e, ProducerAccount)),
      Sum(entries, AccountIn(e, PlatformAccount)),
      Sum(entries, AccountIn(e, PromoterAccount)),
      -Sum(entries, TypeIn(e, Payout)))
  }
}
