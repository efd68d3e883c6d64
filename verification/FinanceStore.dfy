/** The finance service over a stored ledger: loops that build entries, balances and payables. */
module FinanceStore {
  import opened Base
  import opened Ledger
  import opened LedgerProofs
  import S = SalesModel
  import P = Pricing

  /** The map a reversal builds while it reads: balance and promoter of every account met so far. */
  datatype Tally = Tally(accounts: seq<Account>, amount: map<Account, int>, promoter: map<Account, Option<nat>>)

  function Add(t: Tally, x: Entry): Tally {
    var current := if x.account in t.amount then t.amount[x.account] else 0;
    var last := if x.account in t.promoter then t.promoter[x.account] else None;
    Tally(if x.account in t.accounts then t.accounts else t.accounts + [x.account],
          t.amount[x.account := current + x.amount],
          t.promoter[x.account := if x.promoterId.Some? then x.promoterId else last])
  }

  function TallyOf(rows: seq<Entry>): Tally {
    if rows == [] then Tally([], map[], map[]) else Add(TallyOf(rows[..|rows| - 1]), rows[|rows| - 1])
  }

  lemma {:induction false} TallyAccounts(rows: seq<Entry>)
    ensures TallyOf(rows).accounts == Accounts(rows)
    ensures forall a :: a in TallyOf(rows).accounts ==> a in TallyOf(rows).amount && a in TallyOf(rows).promoter
  {
    if rows != [] {
      TallyAccounts(rows[..|rows| - 1]);
    }
  }

  lemma {:induction false} TallyBalance(rows: seq<Entry>, a: Account)
    ensures Balance(rows, a) == if a in TallyOf(rows).amount then TallyOf(rows).amount[a] else 0
  {
    if rows != [] {
      TallyBalance(rows[..|rows| - 1], a);
    }
  }

  lemma {:induction false} TallyPromoter(rows: seq<Entry>, a: Account)
    ensures LastPromoter(rows, a) == if a in TallyOf(rows).promoter then TallyOf(rows).promoter[a] else None
  {
    if rows != [] {
      TallyPromoter(rows[..|rows| - 1], a);
    }
  }

  /** The tally says what the accounts, their balances and their promoters are. */
  lemma TallyExact(rows: seq<Entry>)
    ensures var t := TallyOf(rows);
      && t.accounts == Accounts(rows)
      && (forall a :: a in t.accounts ==> a in t.amount && t.amount[a] == Balance(rows, a))
      && (forall a :: a in t.accounts ==> a in t.promoter && t.promoter[a] == LastPromoter(rows, a))
  {
    TallyAccounts(rows);
    forall a | a in TallyOf(rows).accounts
      ensures TallyOf(rows).amount[a] == Balance(rows, a) && TallyOf(rows).promoter[a] == LastPromoter(rows, a)
    {
      TallyBalance(rows, a);
      TallyPromoter(rows, a);
    }
  }

  class FinanceLedger {
    var orders: seq<OrderFacts>
    var entries: seq<Entry>

    constructor ()
      ensures orders == [] && entries == []
    {
      orders, entries := [], [];
    }

    /** The unique (order, account, type) index. */
    method HasKey(e: Entry) returns (found: bool)
      ensures found == Clashes(entries, e)
    {
      for i := 0 to |entries|
        invariant !Clashes(entries[..i], e)
      {
        if e.orderId.Some? && entries[i].orderId == e.orderId && entries[i].account == e.account
          && entries[i].kind == e.kind {
          assert SameKey(entries[i], e);
          return true;
        }
        assert entries[..i + 1] == entries[..i] + [entries[i]];
        ClashesConcat(entries[..i], [entries[i]], e);
      }
      assert entries[..|entries|] == entries;
      return false;
    }

    /** Inserts the batch, skipping duplicates; returns how many rows are new. */
    method PostForOrder(batch: seq<Entry>) returns (written: nat)
      modifies this`entries
      ensures entries == PostAll(old(entries), batch)
      ensures |entries| == |old(entries)| + written
    {
      written := 0;
      ghost var before := entries;
      for i := 0 to |batch|
        invariant entries == PostAll(before, batch[..i])
        invariant |entries| == |before| + written
      {
        assert batch[..i + 1][..i] == batch[..i];
        var clash := HasKey(batch[i]);
        if !clash {
          entries := entries + [batch[i]];
          written := written + 1;
        }
      }
      assert batch[..|batch|] == batch;
    }

    /** The entries that do not depend on a commission, pushed one after the other. */
    static method BaseEntries(o: nat, f: OrderFacts) returns (batch: seq<Entry>)
      ensures batch == BasePosting(o, f)
    {
      batch := [OrderEntry(o, f, ProducerAccount, Sale, f.subtotal)];
      if f.discount > 0 {
        batch := batch + [OrderEntry(o, f, ProducerAccount, Discount, 0 - f.discount)];
      }
      if f.fee > 0 {
        batch := batch + [OrderEntry(o, f, PlatformAccount, Fee, f.fee)];
        if f.feeMode == P.Producer {
          batch := batch + [OrderEntry(o, f, ProducerAccount, Fee, 0 - f.fee)];
        }
      }
      if f.pspCost > 0 {
        batch := batch + [OrderEntry(o, f, PlatformAccount, PspCost, 0 - f.pspCost)];
      }
    }

    method PostForPaidOrder(o: nat)
      modifies this`entries
      ensures entries == Ledger.PostForPaidOrder(orders, old(entries), o)
    {
      if o >= |orders| || orders[o].status != S.Paid {
        return;
      }
      var f := orders[o];
      var batch := BaseEntries(o, f);
      if f.accrued.Some? && f.accrued.value.amount > 0 {
        var promoter := f.accrued.value.promoterId;
        var amount: int := f.accrued.value.amount;
        batch := batch + [OrderEntry(o, f, ProducerAccount, Commission, 0 - amount).(promoterId := Some(promoter))];
        batch := batch + [OrderEntry(o, f, PromoterAccount, Commission, amount).(promoterId := Some(promoter))];
      }
      assert batch == Posting(o, f);
      var _ := PostForOrder(batch);
    }

    method ListByOrder(o: nat) returns (rows: seq<Entry>)
      ensures rows == Rows(entries, o)
    {
      rows := [];
      for i := 0 to |entries|
        invariant rows == Rows(entries[..i], o)
      {
        assert entries[..i + 1][..i] == entries[..i];
        if entries[i].orderId == Some(o) {
          rows := rows + [entries[i]];
        }
      }
      assert entries[..|entries|] == entries;
    }

    /** One compensating entry for every account that is not already at zero. */
    static method Compensations(existing: seq<Entry>, t: Tally) returns (batch: seq<Entry>)
      requires existing != []
      requires forall a :: a in t.accounts ==> a in t.amount && t.amount[a] == Balance(existing, a)
      requires forall a :: a in t.accounts ==> a in t.promoter && t.promoter[a] == LastPromoter(existing, a)
      ensures batch == ReversalOf(existing, t.accounts)
    {
      var Tally(accounts, amount, promoter) := t;
      batch := [];
      for k := 0 to |accounts|
        invariant batch == ReversalOf(existing, accounts[..k])
      {
        assert accounts[..k + 1][..k] == accounts[..k];
        var a := accounts[k];
        if amount[a] != 0 {
          batch := batch + [Entry(existing[0].eventId, existing[0].orderId, a, Refund, -amount[a], promoter[a])];
        }
      }
      assert accounts[..|accounts|] == accounts;
    }

    method ReverseForOrder(o: nat)
      modifies this`entries
      ensures entries == Ledger.ReverseForOrder(old(entries), o)
    {
      var existing := ListByOrder(o);
      if |existing| == 0 {
        return;
      }
      var reversed, balances := Balances(existing);
      if reversed {
        return;
      }
      var batch := Compensations(existing, balances);
      var _ := PostForOrder(batch);
    }

    /** One more row in the map of balances. */
    static method Meet(t: Tally, entry: Entry) returns (out: Tally)
      ensures out == Add(t, entry)
    {
      var Tally(accounts, amount, promoter) := t;
      var current := if entry.account in amount then amount[entry.account] else 0;
      var last := if entry.account in promoter then promoter[entry.account] else None;
      if entry.account !in accounts {
        accounts := accounts + [entry.account];
      }
      amount := amount[entry.account := current + entry.amount];
      promoter := promoter[entry.account := if entry.promoterId.Some? then entry.promoterId else last];
      return Tally(accounts, amount, promoter);
    }

    /** The balance and the promoter of every account, unless a REFUND row turns up. */
    static method Balances(rows: seq<Entry>) returns (reversed: bool, t: Tally)
      ensures reversed == HasRefund(rows)
      ensures !reversed ==>
        && t.accounts == Accounts(rows)
        && (forall a :: a in t.accounts ==> a in t.amount && t.amount[a] == Balance(rows, a))
        && (forall a :: a in t.accounts ==> a in t.promoter && t.promoter[a] == LastPromoter(rows, a))
    {
      t := Tally([], map[], map[]);
      for i := 0 to |rows|
        invariant forall k :: 0 <= k < i ==> rows[k].kind != Refund
        invariant t == TallyOf(rows[..i])
      {
        if rows[i].kind == Refund {
          return true, t;
        }
        assert rows[..i + 1][..i] == rows[..i];
        t := Meet(t, rows[i]);
      }
      assert rows[..|rows|] == rows;
      TallyExact(rows);
      reversed := false;
    }

    /** What the event owes each promoter with a positive balance. */
    method PromoterPayables(e: nat) returns (owed: map<nat, int>)
      ensures forall p :: p in owed <==> Owed(entries, e, p) > 0
      ensures forall p :: p in owed ==> owed[p] == Owed(entries, e, p)
    {
      var balance: map<nat, int> := map[];
      for i := 0 to |entries|
        invariant forall p: nat :: Owed(entries[..i], e, p) == if p in balance then balance[p] else 0
      {
        assert entries[..i + 1][..i] == entries[..i];
        var x := entries[i];
        if x.eventId == e && x.account == PromoterAccount && x.promoterId.Some? {
          var p := x.promoterId.value;
          balance := balance[p := (if p in balance then balance[p] else 0) + x.amount];
        }
      }
      assert entries[..|entries|] == entries;
      owed := map p | p in balance && balance[p] > 0 :: balance[p];
    }

    /** Refused when nothing is asked for or more than is owed; otherwise the balance drops by the amount. */
    method RegisterPromoterPayout(e: nat, p: nat, amountCents: int) returns (posted: bool)
      modifies this`entries
      ensures posted == (0 < Abs(amountCents) <= Owed(old(entries), e, p))
      ensures Ledger.RegisterPromoterPayout(old(entries), e, p, amountCents) == if posted then Some(entries) else None
      ensures !posted ==> entries == old(entries)
      ensures posted ==> Owed(entries, e, p) == Owed(old(entries), e, p) - Abs(amountCents) >= 0
    {
      var owed := 0;
      for i := 0 to |entries|
        invariant owed == Owed(entries[..i], e, p)
      {
        assert entries[..i + 1][..i] == entries[..i];
        var x := entries[i];
        if x.eventId == e && x.account == PromoterAccount && x.promoterId == Some(p) {
          owed := owed + x.amount;
        }
      }
      assert entries[..|entries|] == entries;
      var amount := Abs(amountCents);
      if amount <= 0 || amount > owed {
        return false;
      }
      SumPush(entries, Entry(e, None, PromoterAccount, Payout, 0 - amount, Some(p)), PromoterIn(e, p));
      entries := entries + [Entry(e, None, PromoterAccount, Payout, 0 - amount, Some(p))];
      return true;
    }

    method RegisterExternalPayout(e: nat, amountCents: int)
      modifies this`entries
      ensures entries == Ledger.RegisterExternalPayout(old(entries), e, amountCents)
      ensures EventSummary(entries, e).producerPayable == EventSummary(old(entries), e).producerPayable - Abs(amountCents)
      ensures EventSummary(entries, e).payouts == EventSummary(old(entries), e).payouts + Abs(amountCents)
    {
      var x := Entry(e, None, ProducerAccount, Payout, 0 - Abs(amountCents), None);
      SumPush(entries, x, AccountIn(e, ProducerAccount));
      SumPush(entries, x, TypeIn(e, Payout));
      entries := entries + [x];
    }
  }
}
