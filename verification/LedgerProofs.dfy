/** What posting and reversing do to the rows of one order and to sums over the ledger. */
module LedgerProofs {
  import opened Base
  import opened Ledger
  import P = Pricing

  predicate OfOrder(batch: seq<Entry>, o: nat) {
    forall k :: 0 <= k < |batch| ==> batch[k].orderId == Some(o)
  }

  predicate DistinctKeys(batch: seq<Entry>) {
    forall i, j :: 0 <= i < j < |batch| ==> !SameKey(batch[i], batch[j])
  }

  /** Posting the batch would add nothing. */
  predicate AllStored(rows: seq<Entry>, batch: seq<Entry>) {
    forall k :: 0 <= k < |batch| ==> Clashes(rows, batch[k])
  }

  predicate NoneStored(rows: seq<Entry>, batch: seq<Entry>) {
    forall k :: 0 <= k < |batch| ==> !Clashes(rows, batch[k])
  }

  // ----- Posting ---------------------------------------------------------------------------

  /** Posting only appends rows of the batch, and afterwards every key of the batch is stored. */
  lemma {:induction false} PostGrows(rows: seq<Entry>, batch: seq<Entry>)
    requires forall k :: 0 <= k < |batch| ==> batch[k].orderId.Some?
    ensures var out := PostAll(rows, batch);
      && |rows| <= |out| && out[..|rows|] == rows
      && AllStored(out, batch)
      && (forall k :: |rows| <= k < |out| ==> out[k] in batch)
    decreases batch
  {
    if batch != [] {
      var n := |batch| - 1;
      PostGrows(rows, batch[..n]);
      var before, out := PostAll(rows, batch[..n]), PostAll(rows, batch);
      assert SameKey(batch[n], batch[n]);
      if !Clashes(before, batch[n]) {
        assert out[|before|] == batch[n];
      }
      forall k | 0 <= k < |batch| ensures Clashes(out, batch[k]) {
        if k < n {
          assert Clashes(before, batch[..n][k]);
          var i :| 0 <= i < |before| && SameKey(before[i], batch[k]);
          assert out[i] == before[i];
        } else if Clashes(before, batch[n]) {
          assert out == before;
        } else {
          assert SameKey(out[|before|], batch[n]);
        }
      }
    }
  }

  lemma {:induction false} PostStored(rows: seq<Entry>, batch: seq<Entry>)
    requires AllStored(rows, batch)
    ensures PostAll(rows, batch) == rows
    decreases batch
  {
    if batch != [] {
      PostStored(rows, batch[..|batch| - 1]);
    }
  }

  lemma {:induction false} PostFresh(rows: seq<Entry>, batch: seq<Entry>)
    requires NoneStored(rows, batch) && DistinctKeys(batch)
    ensures PostAll(rows, batch) == rows + batch
    decreases batch
  {
    if batch != [] {
      var n := |batch| - 1;
      PostFresh(rows, batch[..n]);
      ClashesConcat(rows, batch[..n], batch[n]);
      assert rows + batch == (rows + batch[..n]) + [batch[n]];
    }
  }

  lemma {:induction false} PostConcat(rows: seq<Entry>, a: seq<Entry>, b: seq<Entry>)
    ensures PostAll(rows, a + b) == PostAll(PostAll(rows, a), b)
    decreases b
  {
    if b == [] {
      assert a + b == a;
    } else {
      var n := |b| - 1;
      assert (a + b)[..|a| + n] == a + b[..n];
      PostConcat(rows, a, b[..n]);
    }
  }

  // ----- Rows of one order -------------------------------------------------------------------

  lemma RowsPush(entries: seq<Entry>, e: Entry, o: nat)
    ensures Rows(entries + [e], o) == Rows(entries, o) + When(e.orderId == Some(o), e)
  {
    assert (entries + [e])[..|entries|] == entries;
  }

  lemma {:induction false} RowsOfOrder(entries: seq<Entry>, o: nat)
    ensures OfOrder(Rows(entries, o), o)
    ensures forall e :: e in Rows(entries, o) <==> e in entries && e.orderId == Some(o)
  {
    if entries != [] {
      var n := |entries| - 1;
      RowsOfOrder(entries[..n], o);
      assert entries == entries[..n] + [entries[n]];
    }
  }

  /** A key of order `o` is taken in the whole ledger exactly when it is among the order's rows. */
  lemma ClashIsLocal(entries: seq<Entry>, e: Entry, o: nat)
    requires e.orderId == Some(o)
    ensures Clashes(entries, e) == Clashes(Rows(entries, o), e)
  {
    RowsOfOrder(entries, o);
    var rows := Rows(entries, o);
    if Clashes(entries, e) {
      var k :| 0 <= k < |entries| && SameKey(entries[k], e);
      assert entries[k] in rows;
    }
    if Clashes(rows, e) {
      var k :| 0 <= k < |rows| && SameKey(rows[k], e);
      assert rows[k] in entries;
    }
  }

  /** Posting for one order acts on that order's rows alone. */
  lemma {:induction false} PostByOrder(entries: seq<Entry>, batch: seq<Entry>, o: nat, other: nat)
    requires OfOrder(batch, o)
    ensures Rows(PostAll(entries, batch), other)
         == if other == o then PostAll(Rows(entries, o), batch) else Rows(entries, other)
    decreases batch
  {
    if batch != [] {
      var n := |batch| - 1;
      PostByOrder(entries, batch[..n], o, other);
      PostByOrder(entries, batch[..n], o, o);
      var before := PostAll(entries, batch[..n]);
      ClashIsLocal(before, batch[n], o);
      RowsPush(before, batch[n], other);
    }
  }

  /** The REFUND rows, or the others. */
  function Only(rows: seq<Entry>, refunds: bool): seq<Entry> {
    if rows == [] then []
    else
      var n := |rows| - 1;
      Only(rows[..n], refunds) + When((rows[n].kind == Refund) == refunds, rows[n])
  }

  predicate Uniform(batch: seq<Entry>, refunds: bool) {
    forall k :: 0 <= k < |batch| ==> (batch[k].kind == Refund) == refunds
  }

  lemma {:induction false} OnlyMembers(rows: seq<Entry>, refunds: bool)
    ensures Uniform(Only(rows, refunds), refunds)
    ensures forall e :: e in Only(rows, refunds) <==> e in rows && (e.kind == Refund) == refunds
  {
    if rows != [] {
      var n := |rows| - 1;
      OnlyMembers(rows[..n], refunds);
      assert rows == rows[..n] + [rows[n]];
    }
  }

  lemma OnlyClash(rows: seq<Entry>, e: Entry)
    ensures Clashes(rows, e) == Clashes(Only(rows, e.kind == Refund), e)
  {
    var only := Only(rows, e.kind == Refund);
    OnlyMembers(rows, e.kind == Refund);
    if Clashes(rows, e) {
      var k :| 0 <= k < |rows| && SameKey(rows[k], e);
      assert rows[k] in only;
    }
    if Clashes(only, e) {
      var k :| 0 <= k < |only| && SameKey(only[k], e);
      assert only[k] in rows;
    }
  }

  lemma {:induction false} OnlyPost(rows: seq<Entry>, batch: seq<Entry>, refunds: bool)
    requires Uniform(batch, refunds)
    ensures Only(PostAll(rows, batch), refunds) == PostAll(Only(rows, refunds), batch)
    ensures Only(PostAll(rows, batch), !refunds) == Only(rows, !refunds)
    decreases batch
  {
    if batch != [] {
      var n := |batch| - 1;
      OnlyPost(rows, batch[..n], refunds);
      var before := PostAll(rows, batch[..n]);
      OnlyClash(before, batch[n]);
      assert (before + [batch[n]])[..|before|] == before;
    }
  }

  lemma {:induction false} OnlyUniform(rows: seq<Entry>, refunds: bool)
    requires Uniform(rows, refunds)
    ensures Only(rows, refunds) == rows
  {
    if rows != [] {
      OnlyUniform(rows[..|rows| - 1], refunds);
    }
  }

  lemma NoRefundIsUniform(rows: seq<Entry>)
    requires !HasRefund(rows)
    ensures Only(rows, false) == rows
  {
    OnlyUniform(rows, false);
  }

  // ----- The posting of an order ------------------------------------------------------------------

  function Amount(): Entry -> int {
    (e: Entry) => e.amount
  }

  lemma SumWhen(b: bool, e: Entry, weight: Entry -> int)
    ensures Sum(When(b, e), weight) == if b then weight(e) else 0
  {
    if b {
      assert [e][..0] == [];
    }
  }

  lemma ClashesConcat(a: seq<Entry>, b: seq<Entry>, e: Entry)
    ensures Clashes(a + b, e) == (Clashes(a, e) || Clashes(b, e))
  {
    if Clashes(a, e) {
      var k :| 0 <= k < |a| && SameKey(a[k], e);
      assert (a + b)[k] == a[k];
    }
    if Clashes(b, e) {
      var k :| 0 <= k < |b| && SameKey(b[k], e);
      assert (a + b)[|a| + k] == b[k];
    }
  }

  /** A run of rows of one order whose keys are all different, none of them a REFUND. */
  predicate WellPosted(rows: seq<Entry>, o: nat) {
    DistinctKeys(rows) && OfOrder(rows, o) && Uniform(rows, false)
  }

  /** A posting lists its keys in this order. */
  function Rank(e: Entry): nat {
    match (e.account, e.kind)
    case (ProducerAccount, Sale) => 0
    case (ProducerAccount, Discount) => 1
    case (PlatformAccount, Fee) => 2
    case (ProducerAccount, Fee) => 3
    case (PlatformAccount, PspCost) => 4
    case (ProducerAccount, Commission) => 5
    case (PromoterAccount, Commission) => 6
    case _ => 7
  }

  predicate Ranked(rows: seq<Entry>, o: nat, low: nat, high: nat) {
    && (forall k :: 0 <= k < |rows| ==> rows[k].orderId == Some(o) && low <= Rank(rows[k]) <= high)
    && (forall i, j :: 0 <= i < j < |rows| ==> Rank(rows[i]) < Rank(rows[j]))
  }

  lemma RankedPush(rows: seq<Entry>, b: bool, e: Entry, o: nat, low: nat, high: nat)
    requires Ranked(rows, o, low, high) && e.orderId == Some(o) && low <= high < Rank(e)
    ensures Ranked(rows + When(b, e), o, low, Rank(e))
  {
  }

  lemma RankedIsWellPosted(rows: seq<Entry>, o: nat, low: nat, high: nat)
    requires Ranked(rows, o, low, high) && high <= 6
    ensures WellPosted(rows, o)
  {
    forall i, j | 0 <= i < j < |rows| ensures !SameKey(rows[i], rows[j]) {
      assert Rank(rows[i]) < Rank(rows[j]);
    }
  }

  lemma RankedPushTwice(rows: seq<Entry>, b: bool, e: Entry, c: bool, d: Entry, o: nat, high: nat)
    requires Ranked(rows, o, 0, high) && e.orderId == Some(o) && d.orderId == Some(o)
    requires high < Rank(e) < Rank(d)
    ensures Ranked(rows + When(b, e) + When(c, d), o, 0, Rank(d))
  {
    RankedPush(rows, b, e, o, 0, high);
    RankedPush(rows + When(b, e), c, d, o, 0, Rank(e));
  }

  function SaleRows(o: nat, f: OrderFacts): seq<Entry> {
    [OrderEntry(o, f, ProducerAccount, Sale, f.subtotal)]
    + When(f.discount > 0, OrderEntry(o, f, ProducerAccount, Discount, 0 - f.discount))
    + When(f.fee > 0, OrderEntry(o, f, PlatformAccount, Fee, f.fee))
  }

  lemma SaleRanked(o: nat, f: OrderFacts)
    ensures Ranked(SaleRows(o, f), o, 0, 2)
  {
    RankedPushTwice([OrderEntry(o, f, ProducerAccount, Sale, f.subtotal)],
                    f.discount > 0, OrderEntry(o, f, ProducerAccount, Discount, 0 - f.discount),
                    f.fee > 0, OrderEntry(o, f, PlatformAccount, Fee, f.fee), o, 0);
  }

  lemma BaseRanked(o: nat, f: OrderFacts)
    ensures Ranked(BasePosting(o, f), o, 0, 4)
  {
    SaleRanked(o, f);
    var borne := OrderEntry(o, f, ProducerAccount, Fee, 0 - f.fee);
    var psp := OrderEntry(o, f, PlatformAccount, PspCost, 0 - f.pspCost);
    RankedPushTwice(SaleRows(o, f), f.fee > 0 && f.feeMode == P.Producer, borne, f.pspCost > 0, psp, o, 2);
    assert BasePosting(o, f) == SaleRows(o, f) + When(f.fee > 0 && f.feeMode == P.Producer, borne) + When(f.pspCost > 0, psp);
  }

  lemma PairIsNew(o: nat, f: OrderFacts)
    requires forall k :: 0 <= k < |BasePosting(o, f)| ==> Rank(BasePosting(o, f)[k]) <= 4
    ensures NoneStored(BasePosting(o, f), CommissionPair(o, f))
  {
    forall k | 0 <= k < |CommissionPair(o, f)| ensures !Clashes(BasePosting(o, f), CommissionPair(o, f)[k]) {
      assert Rank(CommissionPair(o, f)[k]) >= 5;
    }
  }

  lemma PostingShape(o: nat, f: OrderFacts)
    ensures WellPosted(BasePosting(o, f), o) && WellPosted(Posting(o, f), o)
    ensures WellPosted(CommissionPair(o, f), o)
    ensures NoneStored(BasePosting(o, f), CommissionPair(o, f))
  {
    BaseRanked(o, f);
    RankedIsWellPosted(BasePosting(o, f), o, 0, 4);
    RankedIsWellPosted(CommissionPair(o, f), o, 5, 6);
    RankedIsWellPosted(Posting(o, f), o, 0, 6);
    PairIsNew(o, f);
  }

  lemma SumBase(o: nat, f: OrderFacts, weight: Entry -> int)
    ensures Sum(BasePosting(o, f), weight)
         == weight(OrderEntry(o, f, ProducerAccount, Sale, f.subtotal))
            + (if f.discount > 0 then weight(OrderEntry(o, f, ProducerAccount, Discount, 0 - f.discount)) else 0)
            + (if f.fee > 0 then weight(OrderEntry(o, f, PlatformAccount, Fee, f.fee)) else 0)
            + (if f.fee > 0 && f.feeMode == P.Producer
               then weight(OrderEntry(o, f, ProducerAccount, Fee, 0 - f.fee)) else 0)
            + (if f.pspCost > 0 then weight(OrderEntry(o, f, PlatformAccount, PspCost, 0 - f.pspCost)) else 0)
  {
    var sale := OrderEntry(o, f, ProducerAccount, Sale, f.subtotal);
    var discount := When(f.discount > 0, OrderEntry(o, f, ProducerAccount, Discount, 0 - f.discount));
    var fee := When(f.fee > 0, OrderEntry(o, f, PlatformAccount, Fee, f.fee));
    var borne := When(f.fee > 0 && f.feeMode == P.Producer, OrderEntry(o, f, ProducerAccount, Fee, 0 - f.fee));
    var psp := When(f.pspCost > 0, OrderEntry(o, f, PlatformAccount, PspCost, 0 - f.pspCost));
    SumWhen(true, sale, weight);
    SumWhen(f.discount > 0, OrderEntry(o, f, ProducerAccount, Discount, 0 - f.discount), weight);
    SumWhen(f.fee > 0, OrderEntry(o, f, PlatformAccount, Fee, f.fee), weight);
    SumWhen(f.fee > 0 && f.feeMode == P.Producer, OrderEntry(o, f, ProducerAccount, Fee, 0 - f.fee), weight);
    SumWhen(f.pspCost > 0, OrderEntry(o, f, PlatformAccount, PspCost, 0 - f.pspCost), weight);
    SumConcat([sale], discount, weight);
    SumConcat([sale] + discount, fee, weight);
    SumConcat([sale] + discount + fee, borne, weight);
    SumConcat([sale] + discount + fee + borne, psp, weight);
  }

  lemma SumPair(o: nat, f: OrderFacts, weight: Entry -> int)
    ensures Sum(CommissionPair(o, f), weight)
         == if CommissionPair(o, f) == [] then 0
            else weight(CommissionPair(o, f)[0]) + weight(CommissionPair(o, f)[1])
  {
    var pair := CommissionPair(o, f);
    if pair != [] {
      assert pair == [pair[0]] + [pair[1]];
      SumWhen(true, pair[0], weight);
      SumWhen(true, pair[1], weight);
      SumConcat([pair[0]], [pair[1]], weight);
    }
  }

  /** The posting of an order carries exactly its total less the PSP cost, with or without a commission. */
  lemma PostingConserves(o: nat, f: OrderFacts)
    requires AmountsAgree(f)
    ensures Sum(BasePosting(o, f), Amount()) == f.total - f.pspCost
    ensures Sum(Posting(o, f), Amount()) == f.total - f.pspCost
  {
    SumBase(o, f, Amount());
    SumPair(o, f, Amount());
    SumConcat(BasePosting(o, f), CommissionPair(o, f), Amount());
  }

  // ----- What a batch still adds ------------------------------------------------------------------

  /** The batch's entries whose keys are not stored yet. */
  function Unstored(entries: seq<Entry>, batch: seq<Entry>): seq<Entry> {
    if batch == [] then []
    else
      var n := |batch| - 1;
      Unstored(entries, batch[..n]) + When(!Clashes(entries, batch[n]), batch[n])
  }

  lemma {:induction false} UnstoredFrom(entries: seq<Entry>, batch: seq<Entry>)
    ensures forall x :: x in Unstored(entries, batch) ==> x in batch
    decreases batch
  {
    if batch != [] {
      UnstoredFrom(entries, batch[..|batch| - 1]);
      assert batch == batch[..|batch| - 1] + [batch[|batch| - 1]];
    }
  }

  /** A batch with distinct keys writes exactly its entries that are not stored yet. */
  lemma {:induction false} PostWritesUnstored(entries: seq<Entry>, batch: seq<Entry>)
    requires DistinctKeys(batch)
    ensures PostAll(entries, batch) == entries + Unstored(entries, batch)
    decreases batch
  {
    if batch != [] {
      var n := |batch| - 1;
      PostWritesUnstored(entries, batch[..n]);
      UnstoredFrom(entries, batch[..n]);
      ClashesConcat(entries, Unstored(entries, batch[..n]), batch[n]);
      assert !Clashes(Unstored(entries, batch[..n]), batch[n]) by {
        forall k | 0 <= k < |Unstored(entries, batch[..n])|
          ensures !SameKey(Unstored(entries, batch[..n])[k], batch[n])
        {
          assert Unstored(entries, batch[..n])[k] in batch[..n];
        }
      }
    }
  }

  // ----- Reversal -----------------------------------------------------------------------------------

  function OfPromoter(p: nat): Entry -> int {
    (e: Entry) => if e.account == PromoterAccount && e.promoterId == Some(p) then e.amount else 0
  }

  /** Every account of the rows, and every promoter's own balance in them, is zero. */
  ghost predicate AllZero(rows: seq<Entry>) {
    && (forall a :: Balance(rows, a) == 0)
    && (forall p: nat :: Sum(rows, OfPromoter(p)) == 0)
  }

  predicate DistinctAccounts(accounts: seq<Account>) {
    forall i, j :: 0 <= i < j < |accounts| ==> accounts[i] != accounts[j]
  }

  lemma {:induction false} AccountsExact(rows: seq<Entry>)
    ensures DistinctAccounts(Accounts(rows))
    ensures forall a :: a in Accounts(rows) <==> exists k :: 0 <= k < |rows| && rows[k].account == a
  {
    if rows != [] {
      var n := |rows| - 1;
      AccountsExact(rows[..n]);
      forall a ensures a in Accounts(rows) <==> exists k :: 0 <= k < |rows| && rows[k].account == a {
        if a in Accounts(rows) && a in Accounts(rows[..n]) {
          var k :| 0 <= k < n && rows[..n][k].account == a;
          assert rows[k].account == a;
        }
        if k :| 0 <= k < |rows| && rows[k].account == a {
          if k < n {
            assert rows[..n][k].account == a;
          }
        }
      }
    }
  }

  lemma AbsentAccountIsZero(rows: seq<Entry>, a: Account)
    requires a !in Accounts(rows)
    ensures Balance(rows, a) == 0
  {
    AccountsExact(rows);
    forall k | 0 <= k < |rows| ensures InAccount(a)(rows[k]) == 0 {
    }
    SumZero(rows, InAccount(a));
  }

  lemma {:induction false} ReversalOfShape(rows: seq<Entry>, accounts: seq<Account>)
    requires rows != [] && DistinctAccounts(accounts)
    ensures forall k :: 0 <= k < |ReversalOf(rows, accounts)| ==>
      var e := ReversalOf(rows, accounts)[k];
      && e == Entry(rows[0].eventId, rows[0].orderId, e.account, Refund, -Balance(rows, e.account), LastPromoter(rows, e.account))
      && e.account in accounts && e.amount != 0
    ensures DistinctKeys(ReversalOf(rows, accounts))
    decreases accounts
  {
    if accounts != [] {
      var n := |accounts| - 1;
      ReversalOfShape(rows, accounts[..n]);
      var rest, out := ReversalOf(rows, accounts[..n]), ReversalOf(rows, accounts);
      forall i, j | 0 <= i < j < |out| ensures !SameKey(out[i], out[j]) {
        assert out[i] == rest[i];
        if j < |rest| {
          assert out[j] == rest[j];
        } else {
          assert out[j].account == accounts[n];
          assert rest[i].account in accounts[..n];
        }
      }
    }
  }

  lemma CompensationSums(rows: seq<Entry>, b: Account, weight: Entry -> int)
    requires rows != []
    ensures Sum(Compensation(rows, b), weight)
         == if Balance(rows, b) == 0 then 0
            else weight(Entry(rows[0].eventId, rows[0].orderId, b, Refund, -Balance(rows, b), LastPromoter(rows, b)))
  {
    SumWhen(Balance(rows, b) != 0,
            Entry(rows[0].eventId, rows[0].orderId, b, Refund, -Balance(rows, b), LastPromoter(rows, b)), weight);
  }

  lemma NotBefore(accounts: seq<Account>, a: Account)
    requires DistinctAccounts(accounts) && accounts != []
    ensures var n := |accounts| - 1;
      (a in accounts) == (a in accounts[..n] || a == accounts[n]) && !(a in accounts[..n] && a == accounts[n])
  {
    var n := |accounts| - 1;
    assert accounts == accounts[..n] + [accounts[n]];
    if a in accounts[..n] {
      var i :| 0 <= i < n && accounts[..n][i] == a;
      assert accounts[i] != accounts[n];
    }
  }

  lemma {:induction false} ReversalOfBalances(rows: seq<Entry>, accounts: seq<Account>, a: Account)
    requires rows != [] && DistinctAccounts(accounts)
    ensures Sum(ReversalOf(rows, accounts), InAccount(a)) == if a in accounts then -Balance(rows, a) else 0
    decreases accounts
  {
    if accounts != [] {
      var n := |accounts| - 1;
      NotBefore(accounts, a);
      ReversalOfBalances(rows, accounts[..n], a);
      CompensationSums(rows, accounts[n], InAccount(a));
      SumConcat(ReversalOf(rows, accounts[..n]), Compensation(rows, accounts[n]), InAccount(a));
    }
  }

  lemma {:induction false} ReversalOfPromoter(rows: seq<Entry>, accounts: seq<Account>, p: nat)
    requires rows != [] && DistinctAccounts(accounts)
    ensures Sum(ReversalOf(rows, accounts), OfPromoter(p))
         == if PromoterAccount in accounts && LastPromoter(rows, PromoterAccount) == Some(p)
            then -Balance(rows, PromoterAccount) else 0
    decreases accounts
  {
    if accounts != [] {
      var n := |accounts| - 1;
      NotBefore(accounts, PromoterAccount);
      ReversalOfPromoter(rows, accounts[..n], p);
      CompensationSums(rows, accounts[n], OfPromoter(p));
      SumConcat(ReversalOf(rows, accounts[..n]), Compensation(rows, accounts[n]), OfPromoter(p));
    }
  }

  /** Every promoter-account row names the same promoter. */
  predicate OnePromoter(rows: seq<Entry>, p: nat) {
    forall k :: 0 <= k < |rows| && rows[k].account == PromoterAccount ==> rows[k].promoterId == Some(p)
  }

  lemma {:induction false} OnePromoterBalance(rows: seq<Entry>, only: nat, p: nat)
    requires OnePromoter(rows, only)
    ensures Sum(rows, OfPromoter(p)) == if p == only then Balance(rows, PromoterAccount) else 0
    ensures LastPromoter(rows, PromoterAccount)
         == if PromoterAccount in Accounts(rows) then Some(only) else None
  {
    if rows != [] {
      OnePromoterBalance(rows[..|rows| - 1], only, p);
    }
  }

  /**
   * Reversing an order that has no REFUND row yet leaves every account, and the promoter's own
   * balance, at exactly zero.
   */
  lemma ReversalZeroes(rows: seq<Entry>, o: nat, only: nat)
    requires OfOrder(rows, o) && !HasRefund(rows) && OnePromoter(rows, only)
    ensures PostAll(rows, Reversal(rows)) == rows + Reversal(rows)
    ensures AllZero(rows + Reversal(rows))
  {
    if rows != [] {
      AccountsExact(rows);
      ReversalOfShape(rows, Accounts(rows));
      PostFresh(rows, Reversal(rows));
      forall a ensures Balance(rows + Reversal(rows), a) == 0 {
        ReversalOfBalances(rows, Accounts(rows), a);
        SumConcat(rows, Reversal(rows), InAccount(a));
        if a !in Accounts(rows) {
          AbsentAccountIsZero(rows, a);
        }
      }
      forall p: nat ensures Sum(rows + Reversal(rows), OfPromoter(p)) == 0 {
        ReversalOfPromoter(rows, Accounts(rows), p);
        OnePromoterBalance(rows, only, p);
        SumConcat(rows, Reversal(rows), OfPromoter(p));
        if PromoterAccount !in Accounts(rows) {
          AbsentAccountIsZero(rows, PromoterAccount);
        }
      }
    }
  }

  /** A zeroed order has nothing left to reverse. */
  lemma {:induction false} ZeroHasNothingToReverse(rows: seq<Entry>, accounts: seq<Account>)
    requires rows != [] && forall a :: Balance(rows, a) == 0
    ensures ReversalOf(rows, accounts) == []
    decreases accounts
  {
    if accounts != [] {
      ZeroHasNothingToReverse(rows, accounts[..|accounts| - 1]);
    }
  }

  // ----- Sums over the whole ledger, order by order ---------------------------------------------

  /** `weight` over the event's entries, and over those of them that belong to no order. */
  function InEvent(e: nat, weight: Entry -> int): Entry -> int {
    (x: Entry) => if x.eventId == e then weight(x) else 0
  }

  function LooseIn(e: nat, weight: Entry -> int): Entry -> int {
    (x: Entry) => if x.eventId == e && x.orderId == None then weight(x) else 0
  }

  /** `weight` summed over the rows of those of the first `n` orders that belong to event `e`. */
  function ByOrder(orders: seq<OrderFacts>, entries: seq<Entry>, e: nat, n: nat, weight: Entry -> int): int
    requires n <= |orders|
  {
    if n == 0 then 0
    else ByOrder(orders, entries, e, n - 1, weight)
         + if orders[n - 1].eventId == e then Sum(Rows(entries, n - 1), weight) else 0
  }

  predicate BelongsToOrder(orders: seq<OrderFacts>, x: Entry) {
    x.orderId.Some? ==> x.orderId.value < |orders| && x.eventId == orders[x.orderId.value].eventId
  }

  lemma {:induction false} ByOrderPush(
      orders: seq<OrderFacts>, entries: seq<Entry>, x: Entry, e: nat, n: nat, weight: Entry -> int)
    requires n <= |orders| && BelongsToOrder(orders, x)
    ensures ByOrder(orders, entries + [x], e, n, weight)
         == ByOrder(orders, entries, e, n, weight)
            + if x.orderId.Some? && x.orderId.value < n && x.eventId == e then weight(x) else 0
  {
    if n > 0 {
      ByOrderPush(orders, entries, x, e, n - 1, weight);
      RowsPush(entries, x, n - 1);
      SumWhen(x.orderId == Some(n - 1), x, weight);
      SumConcat(Rows(entries, n - 1), When(x.orderId == Some(n - 1), x), weight);
    }
  }

  lemma {:induction false} ByOrderEmpty(orders: seq<OrderFacts>, e: nat, n: nat, weight: Entry -> int)
    requires n <= |orders|
    ensures ByOrder(orders, [], e, n, weight) == 0
  {
    if n > 0 {
      ByOrderEmpty(orders, e, n - 1, weight);
    }
  }

  /** Whatever is counted over an event's ledger lies in exactly one of its orders or in a payout. */
  lemma {:induction false} LedgerPartition(orders: seq<OrderFacts>, entries: seq<Entry>, e: nat, weight: Entry -> int)
    requires forall k :: 0 <= k < |entries| ==> BelongsToOrder(orders, entries[k])
    ensures Sum(entries, InEvent(e, weight))
         == ByOrder(orders, entries, e, |orders|, weight) + Sum(entries, LooseIn(e, weight))
    decreases entries
  {
    if entries == [] {
      ByOrderEmpty(orders, e, |orders|, weight);
    } else {
      var n := |entries| - 1;
      LedgerPartition(orders, entries[..n], e, weight);
      ByOrderPush(orders, entries[..n], entries[n], e, |orders|, weight);
      assert entries == entries[..n] + [entries[n]];
    }
  }

  // ----- Figures of one order's rows ----------------------------------------------------------------

  function OfKind(kind: EntryType): Entry -> int {
    (x: Entry) => if x.kind == kind then x.amount else 0
  }

  function OfAccountKind(account: Account, kind: EntryType): Entry -> int {
    (x: Entry) => if x.account == account && x.kind == kind then x.amount else 0
  }

  lemma {:induction false} SumOnly(rows: seq<Entry>, weight: Entry -> int)
    ensures Sum(rows, weight) == Sum(Only(rows, true), weight) + Sum(Only(rows, false), weight)
  {
    if rows != [] {
      var n := |rows| - 1;
      SumOnly(rows[..n], weight);
      SumWhen(rows[n].kind == Refund, rows[n], weight);
      SumWhen(rows[n].kind != Refund, rows[n], weight);
      SumConcat(Only(rows[..n], true), When(rows[n].kind == Refund, rows[n]), weight);
      SumConcat(Only(rows[..n], false), When(rows[n].kind != Refund, rows[n]), weight);
    }
  }
}
