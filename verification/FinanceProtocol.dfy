/**
 * The ledger as a state machine. Accrual, posting, reversal and promoter payouts are calls of
 * several database steps; other calls may run in between and a call may die at every point.
 */
module FinanceProtocol {
  import opened Base
  import opened Ledger
  import S = SalesModel

  /** A call in flight: the database step it is about to take. */
  datatype Job =
    | Accruing(order: nat, accrual: Accrual)
    | ReadingCommission(order: nat)
    | ReadingRows(order: nat)
    | Writing(order: nat, batch: seq<Entry>)

  /** A promoter payout that has read the balance and passed its check, but is not yet written. */
  datatype Pending = Pending(event: nat, promoter: nat, amount: nat)

  datatype Books = Books(
    orders: seq<OrderFacts>, entries: seq<Entry>, jobs: map<nat, Job>, payouts: map<nat, Pending>)

  const Init := Books([], [], map[], map[])

  datatype Action =
    | PlaceOrder(facts: OrderFacts)
    | MarkPaid(order: nat)
    | Expire(order: nat)
    | StartAccrual(pid: nat, order: nat, accrual: Accrual)
    | StartPost(pid: nat, order: nat)
    | StartRefund(pid: nat, order: nat, chargeback: bool)
    | PayProducer(event: nat, amount: int)
    | PayPromoter(payId: nat, event: nat, promoter: nat, amount: int)
    | WritePayout(payId: nat)
    | DropPayout(payId: nat)
    | Step(pid: nat)
    | Crash(pid: nat)

  predicate StatusIs(s: Books, o: nat, status: S.OrderStatus) {
    o < |s.orders| && s.orders[o].status == status
  }

  function WithStatus(s: Books, o: nat, status: S.OrderStatus): Books
    requires o < |s.orders|
  {
    s.(orders := s.orders[o := s.orders[o].(status := status)])
  }

  /** The refund coordinator's first step: the guarded flip. */
  function Settle(s: Books, o: nat, chargeback: bool): Books {
    if StatusIs(s, o, S.Paid) || StatusIs(s, o, S.PartiallyRefunded)
    then WithStatus(s, o, if chargeback then S.Chargeback else S.Refunded) else s
  }

  function Begin(s: Books, pid: nat, job: Job): Books {
    s.(jobs := s.jobs[pid := job])
  }

  function Finish(s: Books, pid: nat): Books {
    s.(jobs := s.jobs - {pid})
  }

  function Work(s: Books, pid: nat): Books
    requires pid in s.jobs
  {
    match s.jobs[pid]
    case Accruing(o, a) =>
      if o < |s.orders| && s.orders[o].accrued.None?
      then Finish(s.(orders := s.orders[o := s.orders[o].(accrued := Some(a))]), pid)
      else Finish(s, pid)
    case ReadingCommission(o) =>
      if o < |s.orders| then Begin(s, pid, Writing(o, Posting(o, s.orders[o]))) else Finish(s, pid)
    case ReadingRows(o) => Begin(s, pid, Writing(o, Reversal(Rows(s.entries, o))))
    case Writing(_, batch) => Finish(s.(entries := PostAll(s.entries, batch)), pid)
  }

  function Next(s: Books, a: Action): Books {
    match a
    case PlaceOrder(f) =>
      if AmountsAgree(f) && f.status == S.AwaitingPayment && f.accrued.None?
      then s.(orders := s.orders + [f]) else s
    case MarkPaid(o) => if StatusIs(s, o, S.AwaitingPayment) then WithStatus(s, o, S.Paid) else s
    case Expire(o) => if StatusIs(s, o, S.AwaitingPayment) then WithStatus(s, o, S.OrderExpired) else s
    case StartAccrual(pid, o, accrual) =>
      if pid !in s.jobs && StatusIs(s, o, S.Paid) && accrual.amount > 0 then Begin(s, pid, Accruing(o, accrual)) else s
    case StartPost(pid, o) =>
      if pid !in s.jobs && StatusIs(s, o, S.Paid) then Begin(s, pid, ReadingCommission(o)) else s
    case StartRefund(pid, o, chargeback) =>
      if pid !in s.jobs && o < |s.orders| then Begin(Settle(s, o, chargeback), pid, ReadingRows(o)) else s
    case PayProducer(e, amount) => s.(entries := RegisterExternalPayout(s.entries, e, amount))
    case PayPromoter(id, e, p, amount) =>
      if id !in s.payouts && 0 < Abs(amount) <= Owed(s.entries, e, p)
      then s.(payouts := s.payouts[id := Pending(e, p, Abs(amount))]) else s
    case WritePayout(id) =>
      if id in s.payouts
      then var x := s.payouts[id];
        s.(entries := s.entries + [PromoterPayout(x.event, x.promoter, x.amount)], payouts := s.payouts - {id})
      else s
    case DropPayout(id) => s.(payouts := s.payouts - {id})
    case Step(pid) => if pid in s.jobs then Work(s, pid) else s
    case Crash(pid) => Finish(s, pid)
  }

  function ExecFrom(s: Books, actions: seq<Action>): Books
    decreases actions
  {
    if actions == [] then s else Next(ExecFrom(s, actions[..|actions| - 1]), actions[|actions| - 1])
  }

  function Exec(actions: seq<Action>): Books {
    ExecFrom(Init, actions)
  }

  predicate IsPay(a: Action) {
    a.PayProducer? || a.PayPromoter? || a.WritePayout? || a.DropPayout?
  }

  // ----- Classes of runs ------------------------------------------------------------------------

  /** The job is a refund call of order `o` that has still to read its rows or to write its entries. */
  predicate IsRefundOf(job: Job, o: nat) {
    job == ReadingRows(o) || (job.Writing? && job.order == o && job.batch != [] && job.batch[0].kind == Refund)
  }

  predicate NoRefundOf(s: Books, o: nat) {
    forall pid :: pid in s.jobs ==> !IsRefundOf(s.jobs[pid], o)
  }

  /** A run in which no refund call of an order starts while another one of that order is in flight. */
  predicate RefundsApart(actions: seq<Action>)
    decreases actions
  {
    actions == []
    || (var n := |actions| - 1;
        && RefundsApart(actions[..n])
        && (actions[n].StartRefund? ==> NoRefundOf(Exec(actions[..n]), actions[n].order)))
  }

  predicate NoPayoutTo(s: Books, e: nat, p: nat) {
    forall id :: id in s.payouts ==> !(s.payouts[id].event == e && s.payouts[id].promoter == p)
  }

  /** A run in which no payout of promoter `p` for event `e` starts while another one is in flight. */
  predicate PayoutsApart(actions: seq<Action>, e: nat, p: nat)
    decreases actions
  {
    actions == []
    || (var n := |actions| - 1;
        && PayoutsApart(actions[..n], e, p)
        && (actions[n].PayPromoter? && actions[n].event == e && actions[n].promoter == p ==>
              NoPayoutTo(Exec(actions[..n]), e, p)))
  }
}
