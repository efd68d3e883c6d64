/** When a refunded order stays at zero, exactly, and the races in which it does not. */
module FinanceRefunds {
  import opened Base
  import opened Ledger
  import opened LedgerProofs
  import opened FinanceProtocol
  import opened FinanceRuns
  import opened FinanceGuarantees
  import S = SalesModel
  import P = Pricing

  // ----- The converse: a call left in flight can break a zeroed order -----------------------------

  /** A row is appended only under a key not stored before it. */
  lemma {:induction false} PostNewKeys(rows: seq<Entry>, batch: seq<Entry>)
    ensures var out := PostAll(rows, batch);
      forall i, j :: 0 <= i < j < |out| && |rows| <= j ==> !SameKey(out[i], out[j])
    ensures |rows| <= |PostAll(rows, batch)|
    decreases batch
  {
    if batch != [] {
      var n := |batch| - 1;
      PostNewKeys(rows, batch[..n]);
      var before, out := PostAll(rows, batch[..n]), PostAll(rows, batch);
      forall i, j | 0 <= i < j < |out| && |rows| <= j ensures !SameKey(out[i], out[j]) {
        if j == |before| {
          assert out[i] == before[i];
        } else {
          assert !SameKey(before[i], before[j]);
        }
      }
    }
  }

  lemma OneAccountMoves(rows: seq<Entry>, tail: seq<Entry>)
    requires AllZero(rows) && tail != [] && tail[0].amount != 0
    requires forall k :: 0 < k < |tail| ==> tail[k].account != tail[0].account
    ensures !AllZero(rows + tail)
  {
    var a := tail[0].account;
    assert tail == [tail[0]] + tail[1..];
    SumConcat([tail[0]], tail[1..], InAccount(a));
    SumPush([], tail[0], InAccount(a));
    assert [] + [tail[0]] == [tail[0]];
    forall k | 0 <= k < |tail[1..]| ensures InAccount(a)(tail[1..][k]) == 0 {
      assert tail[1..][k] == tail[k + 1];
    }
    SumZero(tail[1..], InAccount(a));
    SumConcat(rows, tail, InAccount(a));
    assert Balance(rows, a) == 0;
    assert Balance(rows + tail, a) == tail[0].amount;
  }

  lemma NewRows(rows: seq<Entry>, batch: seq<Entry>, o: nat) returns (tail: seq<Entry>)
    requires OfOrder(batch, o) && Uniform(batch, true) && !AllStored(rows, batch)
    ensures PostAll(rows, batch) == rows + tail && tail != []
    ensures tail[0] in batch && forall k :: 0 < k < |tail| ==> tail[k].account != tail[0].account
  {
    var out := PostAll(rows, batch);
    PostGrows(rows, batch);
    PostNewKeys(rows, batch);
    tail := out[|rows|..];
    assert out == rows + tail;
    forall k | 0 <= k < |tail| ensures tail[k] in batch {
      assert tail[k] == out[|rows| + k];
    }
    forall k | 0 < k < |tail| ensures tail[k].account != tail[0].account {
      assert !SameKey(out[|rows|], out[|rows| + k]);
    }
  }

  lemma RefundWriteDisturbs(rows: seq<Entry>, batch: seq<Entry>, o: nat)
    requires AllZero(rows) && OfOrder(batch, o) && Uniform(batch, true) && !AllStored(rows, batch)
    requires forall k :: 0 <= k < |batch| ==> batch[k].amount != 0
    ensures !AllZero(PostAll(rows, batch))
  {
    var tail := NewRows(rows, batch, o);
    OneAccountMoves(rows, tail);
  }

  /** Which keys of a posting are stored depends on the rows that are no REFUND. */
  lemma StoredAmongPosted(rows: seq<Entry>, batch: seq<Entry>)
    requires Uniform(batch, false)
    ensures AllStored(rows, batch) == AllStored(Only(rows, false), batch)
    ensures NoneStored(rows, batch) == NoneStored(Only(rows, false), batch)
  {
    forall k | 0 <= k < |batch| ensures Clashes(rows, batch[k]) == Clashes(Only(rows, false), batch[k]) {
      OnlyClash(rows, batch[k]);
    }
  }

  lemma NothingMoreToPost(o: nat, f: OrderFacts, posted: seq<Entry>, batch: seq<Entry>)
    requires posted == BasePosting(o, f) || posted == Posting(o, f)
    requires batch == BasePosting(o, f) || batch == Posting(o, f)
    ensures AllStored(posted, BasePosting(o, f))
    ensures !AllStored(posted, batch) ==>
      posted == BasePosting(o, f) && batch == Posting(o, f) && CommissionPair(o, f) != []
  {
    var base, pair := BasePosting(o, f), CommissionPair(o, f);
    PostingShape(o, f);
    AllStoredIn(base, pair);
    if posted == Posting(o, f) {
      if batch == Posting(o, f) {
        AllStoredIn(batch, []);
      }
    }
  }

  /** A posting that still adds rows to a posted order adds exactly its commission pair. */
  lemma PostWriteAddsPair(o: nat, f: OrderFacts, rows: seq<Entry>, batch: seq<Entry>)
    requires OrderOk(o, f, rows) && rows != [] && !AllStored(rows, batch)
    requires batch == BasePosting(o, f) || batch == Posting(o, f)
    ensures CommissionPair(o, f) != [] && PostAll(rows, batch) == rows + CommissionPair(o, f)
  {
    var base, pair := BasePosting(o, f), CommissionPair(o, f);
    PostingShape(o, f);
    StoredAmongPosted(rows, batch);
    NothingMoreToPost(o, f, Only(rows, false), batch);
    StoredAmongPosted(rows, base);
    StoredAmongPosted(rows, pair);
    PostConcat(rows, base, pair);
    PostStored(rows, base);
    PostFresh(rows, pair);
  }

  lemma PairDisturbs(o: nat, f: OrderFacts, rows: seq<Entry>)
    requires AllZero(rows) && CommissionPair(o, f) != []
    ensures !AllZero(rows + CommissionPair(o, f))
  {
    OneAccountMoves(rows, CommissionPair(o, f));
  }

  lemma WriteStep(s: Books, pid: nat, o: nat)
    requires pid in s.jobs && s.jobs[pid].Writing? && s.jobs[pid].order == o && OfOrder(s.jobs[pid].batch, o)
    ensures RowsOf(Next(s, Step(pid)), o) == PostAll(RowsOf(s, o), s.jobs[pid].batch)
  {
    PostByOrder(s.entries, s.jobs[pid].batch, o, o);
  }

  lemma ReadStep(s: Books, pid: nat, o: nat)
    requires pid in s.jobs && s.jobs[pid] == ReadingCommission(o) && o < |s.orders|
    ensures Next(s, Step(pid)) == Begin(s, pid, Writing(o, Posting(o, s.orders[o])))
  {
  }

  lemma AccrueStep(s: Books, pid: nat, o: nat, a: Accrual)
    requires pid in s.jobs && s.jobs[pid] == Accruing(o, a) && o < |s.orders| && s.orders[o].accrued.None?
    ensures Next(s, Step(pid)) == Finish(s.(orders := s.orders[o := s.orders[o].(accrued := Some(a))]), pid)
  {
  }

  lemma StartRefundStep(s: Books, pid: nat, o: nat)
    requires o < |s.orders| && pid !in s.jobs
    ensures Next(s, StartRefund(pid, o, false)) == Begin(Settle(s, o, false), pid, ReadingRows(o))
  {
  }

  lemma ReadRowsStep(s: Books, pid: nat, o: nat)
    requires pid in s.jobs && s.jobs[pid] == ReadingRows(o)
    ensures Next(s, Step(pid)) == Begin(s, pid, Writing(o, Reversal(Rows(s.entries, o))))
  {
  }

  lemma WriteBatchStep(s: Books, pid: nat, o: nat, batch: seq<Entry>)
    requires pid in s.jobs && s.jobs[pid] == Writing(o, batch)
    ensures Next(s, Step(pid)) == s.(entries := PostAll(s.entries, batch), jobs := s.jobs - {pid})
  {
  }

  lemma WriteDisturbs(s: Books, pid: nat, o: nat)
    requires Zeroed(s, o) && RowsOf(s, o) != [] && pid in s.jobs
    requires s.jobs[pid].Writing? && s.jobs[pid].order == o && !AllStored(RowsOf(s, o), s.jobs[pid].batch)
    ensures !AllZero(RowsOf(Next(s, Step(pid)), o))
  {
    var f, rows, batch := s.orders[o], RowsOf(s, o), s.jobs[pid].batch;
    assert JobOk(s.orders, s.entries, s.jobs[pid]);
    BatchEntriesOk(s, o, batch);
    WriteStep(s, pid, o);
    if PostBatch(o, f, batch) {
      PostWriteAddsPair(o, f, rows, batch);
      PairDisturbs(o, f, rows);
    } else {
      RefundWriteDisturbs(rows, batch, o);
    }
  }

  lemma ReadDisturbs(s: Books, pid: nat, o: nat)
    requires Zeroed(s, o) && RowsOf(s, o) != [] && pid in s.jobs && s.jobs[pid] == ReadingCommission(o)
    requires !AllStored(RowsOf(s, o), Posting(o, s.orders[o]))
    ensures !AllZero(RowsOf(Next(Next(s, Step(pid)), Step(pid)), o))
  {
    NextKeeps(s, Step(pid));
    ReadStep(s, pid, o);
    WriteDisturbs(Next(s, Step(pid)), pid, o);
  }

  lemma NewPairIsNotStored(o: nat, f: OrderFacts, rows: seq<Entry>)
    requires Only(rows, false) == BasePosting(o, f) && CommissionPair(o, f) != []
    ensures !AllStored(rows, Posting(o, f))
  {
    PostingShape(o, f);
    StoredAmongPosted(rows, CommissionPair(o, f));
    assert Posting(o, f)[|BasePosting(o, f)|] == CommissionPair(o, f)[0];
  }

  /** An accrual makes the commission pair of a posted order one that is still to be written. */
  lemma AccruedPairIsNew(o: nat, f: OrderFacts, a: Accrual, rows: seq<Entry>)
    requires OrderOk(o, f, rows) && rows != [] && f.accrued.None? && a.amount > 0
    ensures !AllStored(rows, Posting(o, f.(accrued := Some(a))))
  {
    var g := f.(accrued := Some(a));
    assert BasePosting(o, g) == BasePosting(o, f) == Posting(o, f);
    NewPairIsNotStored(o, g, rows);
  }

  lemma AccrualOpens(s: Books, accruer: nat, o: nat)
    requires Zeroed(s, o) && RowsOf(s, o) != [] && s.orders[o].accrued.None?
    requires accruer in s.jobs && s.jobs[accruer].Accruing? && s.jobs[accruer].order == o
    ensures var t := Next(s, Step(accruer));
      Zeroed(t, o) && RowsOf(t, o) == RowsOf(s, o) && !AllStored(RowsOf(t, o), Posting(o, t.orders[o]))
  {
    var a := s.jobs[accruer].accrual;
    NextKeeps(s, Step(accruer));
    AccrueStep(s, accruer, o, a);
    assert JobOk(s.orders, s.entries, s.jobs[accruer]) && OrderOk(o, s.orders[o], RowsOf(s, o));
    AccruedPairIsNew(o, s.orders[o], a, RowsOf(s, o));
  }

  lemma AccrualDisturbs(s: Books, pid: nat, accruer: nat, o: nat)
    requires Zeroed(s, o) && RowsOf(s, o) != [] && pid in s.jobs && s.jobs[pid] == ReadingCommission(o)
    requires accruer in s.jobs && s.jobs[accruer].Accruing? && s.jobs[accruer].order == o && s.orders[o].accrued.None?
    ensures !AllZero(RowsOf(Next(Next(Next(s, Step(accruer)), Step(pid)), Step(pid)), o))
  {
    var t := Next(s, Step(accruer));
    AccrualOpens(s, accruer, o);
    AccrueStep(s, accruer, o, s.jobs[accruer].accrual);
    ReadDisturbs(t, pid, o);
  }

  lemma ExecOne(s: Books, a: Action)
    ensures ExecFrom(s, [a]) == Next(s, a)
  {
    assert [a][..0] == [];
  }

  lemma ExecPush(s: Books, actions: seq<Action>, a: Action)
    ensures ExecFrom(s, actions + [a]) == Next(ExecFrom(s, actions), a)
  {
    assert (actions + [a])[..|actions|] == actions;
  }

  lemma DisturbingRun(s: Books, o: nat) returns (actions: seq<Action>)
    requires Zeroed(s, o) && RowsOf(s, o) != [] && !Undisturbed(s, o)
    ensures !AllZero(RowsOf(ExecFrom(s, actions), o))
  {
    var pid :| pid in s.jobs && !Harmless(s, s.jobs[pid], o);
    ExecOne(s, Step(pid));
    if s.jobs[pid].Writing? {
      WriteDisturbs(s, pid, o);
      return [Step(pid)];
    }
    if !AllStored(RowsOf(s, o), Posting(o, s.orders[o])) {
      ReadDisturbs(s, pid, o);
      ExecPush(s, [Step(pid)], Step(pid));
      return [Step(pid)] + [Step(pid)];
    }
    var accruer :| accruer in s.jobs && s.jobs[accruer].Accruing? && s.jobs[accruer].order == o;
    AccrualDisturbs(s, pid, accruer, o);
    ExecOne(s, Step(accruer));
    ExecPush(s, [Step(accruer)], Step(pid));
    ExecPush(s, [Step(accruer)] + [Step(pid)], Step(pid));
    return [Step(accruer)] + [Step(pid)] + [Step(pid)];
  }

  // ----- A refunded order that was never posted ---------------------------------------------------

  /** The amounts of the order cancel in each account, so that posting it would leave every account at zero. */
  predicate CancelsOut(f: OrderFacts) {
    f.subtotal - f.discount == (if f.feeMode == P.Producer then f.fee else 0) && f.fee == f.pspCost
  }

  lemma BaseZeroExactly(o: nat, f: OrderFacts)
    ensures AllZero(BasePosting(o, f)) <==> CancelsOut(f)
  {
    var base := BasePosting(o, f);
    SumBase(o, f, InAccount(ProducerAccount));
    SumBase(o, f, InAccount(PlatformAccount));
    SumBase(o, f, InAccount(PromoterAccount));
    assert Balance(base, ProducerAccount) == f.subtotal - f.discount - (if f.feeMode == P.Producer then f.fee else 0);
    assert Balance(base, PlatformAccount) == f.fee - f.pspCost;
    forall p: nat ensures Sum(base, OfPromoter(p)) == 0 {
      SumBase(o, f, OfPromoter(p));
    }
    if CancelsOut(f) {
      forall a ensures Balance(base, a) == 0 {
        assert a == ProducerAccount || a == PlatformAccount || a == PromoterAccount;
      }
    }
  }

  /** A posting with a commission leaves the promoter with it. */
  lemma PairIsOwed(o: nat, f: OrderFacts)
    requires CommissionPair(o, f) != []
    ensures !AllZero(Posting(o, f))
  {
    SumBase(o, f, InAccount(PromoterAccount));
    SumPair(o, f, InAccount(PromoterAccount));
    SumConcat(BasePosting(o, f), CommissionPair(o, f), InAccount(PromoterAccount));
    assert Balance(Posting(o, f), PromoterAccount) == f.accrued.value.amount;
  }

  lemma PostingZeroExactly(o: nat, f: OrderFacts)
    ensures AllZero(Posting(o, f)) <==> CancelsOut(f) && CommissionPair(o, f) == []
  {
    BaseZeroExactly(o, f);
    if CommissionPair(o, f) != [] {
      PairIsOwed(o, f);
    } else {
      assert Posting(o, f) == BasePosting(o, f);
    }
  }

  /**
   * What the job can still post of order `o`, if anything, leaves every account at zero; `quiet`
   * says that no accrual of the order is in flight.
   */
  predicate PostsNothingOwed(o: nat, f: OrderFacts, quiet: bool, job: Job) {
    job.order != o
    || match job
       case Writing(_, batch) => batch == [] || (batch == BasePosting(o, f) && CancelsOut(f))
       case ReadingCommission(_) => CancelsOut(f) && f.accrued.None? && quiet
       case _ => true
  }

  predicate NothingOwedInFlight(s: Books, o: nat)
    requires o < |s.orders|
  {
    forall pid :: pid in s.jobs ==> PostsNothingOwed(o, s.orders[o], NoAccrual(s, o), s.jobs[pid])
  }

  /** An order without rows that no call in flight can leave unbalanced. */
  ghost predicate SafelyUnposted(s: Books, o: nat) {
    Inv(s) && o < |s.orders| && Ended(s.orders[o].status) && RowsOf(s, o) == [] && NothingOwedInFlight(s, o)
  }

  ghost predicate SafelyPosted(s: Books, o: nat) {
    Zeroed(s, o) && RowsOf(s, o) != [] && Undisturbed(s, o)
  }

  lemma NothingStoredInNothing(batch: seq<Entry>)
    requires AllStored([], batch)
    ensures batch == []
  {
    assert |batch| > 0 ==> !Clashes([], batch[0]);
  }

  lemma SafeJobPostsNothing(o: nat, f: OrderFacts, quiet: bool, job: Job)
    requires SafeJob(job, o, [])
    ensures PostsNothingOwed(o, f, quiet, job)
  {
    if job.order == o && job.Writing? {
      NothingStoredInNothing(job.batch);
    }
  }

  lemma UnpostedUnchanged(s: Books, t: Books, o: nat)
    requires SafelyUnposted(s, o) && o < |t.orders| && RowsOf(t, o) == [] && Inv(t)
    requires t.orders[o] == s.orders[o]
    requires forall pid :: pid in t.jobs ==>
      (pid in s.jobs && t.jobs[pid] == s.jobs[pid]) || SafeJob(t.jobs[pid], o, [])
    ensures SafelyUnposted(t, o)
  {
    var f := s.orders[o];
    assert NoAccrual(s, o) ==> NoAccrual(t, o);
    forall pid | pid in t.jobs ensures PostsNothingOwed(o, f, NoAccrual(t, o), t.jobs[pid]) {
      if SafeJob(t.jobs[pid], o, []) {
        SafeJobPostsNothing(o, f, NoAccrual(t, o), t.jobs[pid]);
      } else {
        assert PostsNothingOwed(o, f, NoAccrual(s, o), s.jobs[pid]);
      }
    }
  }

  lemma AccrualKeepsJob(o: nat, f: OrderFacts, g: OrderFacts, quiet: bool, job: Job)
    requires PostsNothingOwed(o, f, false, job) && g == f.(accrued := g.accrued)
    ensures PostsNothingOwed(o, g, quiet, job)
  {
    assert BasePosting(o, g) == BasePosting(o, f);
  }

  lemma UnpostedAccrues(s: Books, pid: nat, o: nat)
    requires SafelyUnposted(s, o) && pid in s.jobs && s.jobs[pid].Accruing? && s.jobs[pid].order == o
    ensures SafelyUnposted(Work(s, pid), o)
  {
    var t := Work(s, pid);
    WorkKeeps(s, pid);
    assert !NoAccrual(s, o);
    assert t.entries == s.entries && t.jobs == s.jobs - {pid};
    assert o < |t.orders| && t.orders[o] == s.orders[o].(accrued := t.orders[o].accrued);
    forall p | p in t.jobs ensures PostsNothingOwed(o, t.orders[o], NoAccrual(t, o), t.jobs[p]) {
      assert PostsNothingOwed(o, s.orders[o], false, s.jobs[p]);
      AccrualKeepsJob(o, s.orders[o], t.orders[o], NoAccrual(t, o), s.jobs[p]);
    }
  }

  lemma UnpostedReads(s: Books, pid: nat, o: nat)
    requires SafelyUnposted(s, o) && pid in s.jobs && s.jobs[pid] == ReadingCommission(o)
    ensures SafelyUnposted(Work(s, pid), o)
  {
    var t, f := Work(s, pid), s.orders[o];
    WorkKeeps(s, pid);
    assert PostsNothingOwed(o, f, NoAccrual(s, o), s.jobs[pid]);
    assert t == Begin(s, pid, Writing(o, Posting(o, f)));
    assert Posting(o, f) == BasePosting(o, f);
    assert NoAccrual(s, o) ==> NoAccrual(t, o);
    forall p | p in t.jobs ensures PostsNothingOwed(o, f, NoAccrual(t, o), t.jobs[p]) {
      assert p != pid ==> PostsNothingOwed(o, f, NoAccrual(s, o), s.jobs[p]);
    }
  }

  /** Once the cancelling amounts are posted, what else was in flight adds no row. */
  lemma HarmlessOncePosted(t: Books, o: nat, f: OrderFacts, job: Job)
    requires o < |t.orders| && t.orders[o] == f && RowsOf(t, o) == BasePosting(o, f)
    requires PostsNothingOwed(o, f, NoAccrual(t, o), job)
    ensures Harmless(t, job, o)
  {
    var base := BasePosting(o, f);
    PostingShape(o, f);
    AllStoredIn(base, []);
    if job == ReadingCommission(o) {
      assert Posting(o, f) == base;
    }
  }

  lemma QuieterStill(o: nat, f: OrderFacts, job: Job, quiet: bool, after: bool)
    requires PostsNothingOwed(o, f, quiet, job) && (quiet ==> after)
    ensures PostsNothingOwed(o, f, after, job)
  {
  }

  lemma UnpostedWriteRows(s: Books, pid: nat, o: nat)
    requires o < |s.orders| && RowsOf(s, o) == [] && NothingOwedInFlight(s, o)
    requires pid in s.jobs && s.jobs[pid].Writing? && s.jobs[pid].order == o && s.jobs[pid].batch != []
    ensures var t := Next(s, Step(pid));
      && t.orders == s.orders && t.jobs == s.jobs - {pid}
      && RowsOf(t, o) == BasePosting(o, s.orders[o]) && CancelsOut(s.orders[o])
  {
    var base := BasePosting(o, s.orders[o]);
    assert PostsNothingOwed(o, s.orders[o], NoAccrual(s, o), s.jobs[pid]);
    PostingShape(o, s.orders[o]);
    PostFresh([], base);
    assert [] + base == base;
    WriteBatchStep(s, pid, o, base);
    WriteStep(s, pid, o);
  }

  lemma UndisturbedOncePosted(s: Books, t: Books, o: nat)
    requires o < |s.orders| && NothingOwedInFlight(s, o) && t.orders == s.orders
    requires RowsOf(t, o) == BasePosting(o, s.orders[o])
    requires forall p :: p in t.jobs ==> p in s.jobs && t.jobs[p] == s.jobs[p]
    ensures Undisturbed(t, o)
  {
    var f := s.orders[o];
    assert NoAccrual(s, o) ==> NoAccrual(t, o);
    forall p | p in t.jobs ensures Harmless(t, t.jobs[p], o) {
      assert PostsNothingOwed(o, f, NoAccrual(s, o), s.jobs[p]);
      QuieterStill(o, f, s.jobs[p], NoAccrual(s, o), NoAccrual(t, o));
      HarmlessOncePosted(t, o, f, s.jobs[p]);
    }
  }

  /** The posting of an order whose amounts cancel: every account is still at zero, and nothing else is pending. */
  lemma UnpostedWrites(s: Books, pid: nat, o: nat)
    requires SafelyUnposted(s, o) && pid in s.jobs && s.jobs[pid].Writing? && s.jobs[pid].order == o && s.jobs[pid].batch != []
    ensures SafelyPosted(Next(s, Step(pid)), o)
  {
    NextKeeps(s, Step(pid));
    UnpostedWriteRows(s, pid, o);
    BaseZeroExactly(o, s.orders[o]);
    UndisturbedOncePosted(s, Next(s, Step(pid)), o);
  }

  /** A step that is not order `o`'s own posting. */
  predicate Idle(job: Job, o: nat) {
    job.order != o || job.ReadingRows? || (job.Writing? && job.batch == [])
  }

  lemma IdleLeavesRows(s: Books, pid: nat, o: nat)
    requires Inv(s) && pid in s.jobs && Idle(s.jobs[pid], o) && o < |s.orders| && RowsOf(s, o) == []
    ensures RowsOf(Work(s, pid), o) == [] && o < |Work(s, pid).orders| && Work(s, pid).orders[o] == s.orders[o]
  {
    var job := s.jobs[pid];
    assert JobOk(s.orders, s.entries, job);
    if job.Writing? {
      BatchEntriesOk(s, job.order, job.batch);
      PostByOrder(s.entries, job.batch, job.order, o);
    }
  }

  /** A step of another order, a read of the empty rows, or a write of nothing. */
  lemma UnpostedIdles(s: Books, pid: nat, o: nat)
    requires SafelyUnposted(s, o) && pid in s.jobs && Idle(s.jobs[pid], o)
    ensures SafelyUnposted(Work(s, pid), o)
  {
    WorkKeeps(s, pid);
    IdleLeavesRows(s, pid, o);
    UnpostedUnchanged(s, Work(s, pid), o);
  }

  lemma UnpostedWork(s: Books, pid: nat, o: nat)
    requires SafelyUnposted(s, o) && pid in s.jobs
    ensures SafelyUnposted(Work(s, pid), o) || SafelyPosted(Work(s, pid), o)
  {
    var job := s.jobs[pid];
    if Idle(job, o) {
      UnpostedIdles(s, pid, o);
    } else if job.Accruing? {
      UnpostedAccrues(s, pid, o);
    } else if job.ReadingCommission? {
      UnpostedReads(s, pid, o);
    } else {
      UnpostedWrites(s, pid, o);
      StepIsWork(s, pid);
    }
  }

  lemma UnpostedSits(s: Books, a: Action, o: nat)
    requires SafelyUnposted(s, o) && !a.Step?
    ensures SafelyUnposted(Next(s, a), o)
  {
    NextKeeps(s, a);
    OtherActionsLeave(s, a, o);
    UnpostedUnchanged(s, Next(s, a), o);
  }

  lemma UnpostedNext(s: Books, a: Action, o: nat)
    requires SafelyUnposted(s, o)
    ensures SafelyUnposted(Next(s, a), o) || SafelyPosted(Next(s, a), o)
  {
    if a.Step? {
      StepIsWork(s, a.pid);
      if a.pid in s.jobs {
        UnpostedWork(s, a.pid, o);
      }
    } else {
      UnpostedSits(s, a, o);
    }
  }

  lemma {:induction false} SafelyUnpostedForever(s: Books, later: seq<Action>, o: nat)
    requires SafelyUnposted(s, o)
    ensures SafelyUnposted(ExecFrom(s, later), o) || SafelyPosted(ExecFrom(s, later), o)
    decreases later
  {
    if later != [] {
      var t, a := ExecFrom(s, later[..|later| - 1]), later[|later| - 1];
      SafelyUnpostedForever(s, later[..|later| - 1], o);
      if SafelyUnposted(t, o) {
        UnpostedNext(t, a, o);
      } else {
        ZeroedStays(t, a, o);
      }
    }
  }

  // ----- The converse for an order without rows ----------------------------------------------------

  lemma PostBatchOwes(o: nat, f: OrderFacts, batch: seq<Entry>)
    requires batch == BasePosting(o, f) || batch == Posting(o, f)
    requires !(batch == BasePosting(o, f) && CancelsOut(f))
    ensures !AllZero(PostAll([], batch))
  {
    PostingShape(o, f);
    PostFresh([], batch);
    assert [] + batch == batch;
    BaseZeroExactly(o, f);
    PostingZeroExactly(o, f);
    if CommissionPair(o, f) == [] {
      assert Posting(o, f) == BasePosting(o, f);
    }
  }

  lemma UnpostedWriteOwes(s: Books, pid: nat, o: nat)
    requires Inv(s) && o < |s.orders| && RowsOf(s, o) == [] && pid in s.jobs && s.jobs[pid].Writing? && s.jobs[pid].order == o
    requires !PostsNothingOwed(o, s.orders[o], NoAccrual(s, o), s.jobs[pid])
    ensures !AllZero(RowsOf(Next(s, Step(pid)), o))
  {
    assert JobOk(s.orders, s.entries, s.jobs[pid]);
    BatchEntriesOk(s, o, s.jobs[pid].batch);
    WriteStep(s, pid, o);
    PostBatchOwes(o, s.orders[o], s.jobs[pid].batch);
  }

  lemma UnpostedReadOwes(s: Books, pid: nat, o: nat)
    requires Inv(s) && o < |s.orders| && RowsOf(s, o) == [] && pid in s.jobs && s.jobs[pid] == ReadingCommission(o)
    requires !CancelsOut(s.orders[o]) || s.orders[o].accrued.Some?
    ensures !AllZero(RowsOf(Next(Next(s, Step(pid)), Step(pid)), o))
  {
    var t := Next(s, Step(pid));
    assert OrderOk(o, s.orders[o], RowsOf(s, o));
    NextKeeps(s, Step(pid));
    ReadStep(s, pid, o);
    if s.orders[o].accrued.Some? {
      assert CommissionPair(o, s.orders[o]) != [];
      PostingLonger(o, s.orders[o]);
    }
    UnpostedWriteOwes(t, pid, o);
  }

  lemma PostingLonger(o: nat, f: OrderFacts)
    requires CommissionPair(o, f) != []
    ensures Posting(o, f) != BasePosting(o, f)
  {
    assert |Posting(o, f)| > |BasePosting(o, f)|;
  }

  lemma UnpostedAccrualOwes(s: Books, pid: nat, accruer: nat, o: nat)
    requires Inv(s) && o < |s.orders| && RowsOf(s, o) == [] && pid in s.jobs && s.jobs[pid] == ReadingCommission(o)
    requires accruer in s.jobs && s.jobs[accruer].Accruing? && s.jobs[accruer].order == o && s.orders[o].accrued.None?
    ensures !AllZero(RowsOf(Next(Next(Next(s, Step(accruer)), Step(pid)), Step(pid)), o))
  {
    NextKeeps(s, Step(accruer));
    AccrueStep(s, accruer, o, s.jobs[accruer].accrual);
    UnpostedReadOwes(Next(s, Step(accruer)), pid, o);
  }

  lemma OwingRun(s: Books, o: nat) returns (actions: seq<Action>)
    requires Inv(s) && o < |s.orders| && RowsOf(s, o) == [] && !NothingOwedInFlight(s, o)
    ensures !AllZero(RowsOf(ExecFrom(s, actions), o))
  {
    var pid :| pid in s.jobs && !PostsNothingOwed(o, s.orders[o], NoAccrual(s, o), s.jobs[pid]);
    ExecOne(s, Step(pid));
    if s.jobs[pid].Writing? {
      UnpostedWriteOwes(s, pid, o);
      return [Step(pid)];
    }
    if !CancelsOut(s.orders[o]) || s.orders[o].accrued.Some? {
      UnpostedReadOwes(s, pid, o);
      ExecPush(s, [Step(pid)], Step(pid));
      return [Step(pid)] + [Step(pid)];
    }
    var accruer :| accruer in s.jobs && s.jobs[accruer].Accruing? && s.jobs[accruer].order == o;
    UnpostedAccrualOwes(s, pid, accruer, o);
    ExecOne(s, Step(accruer));
    ExecPush(s, [Step(accruer)], Step(pid));
    ExecPush(s, [Step(accruer)] + [Step(pid)], Step(pid));
    return [Step(accruer)] + [Step(pid)] + [Step(pid)];
  }

  // ----- The exact condition ------------------------------------------------------------------------

  /**
   * For a posted order: no call in flight will still write a row of it. For an order without rows:
   * no posting of it is in flight, or its amounts cancel and no commission can reach the posting.
   */
  predicate StaysBalanced(s: Books, o: nat)
    requires o < |s.orders|
  {
    if RowsOf(s, o) == [] then NothingOwedInFlight(s, o) else Undisturbed(s, o)
  }

  lemma StaysZeroExactly(s: Books, o: nat)
    requires Zeroed(s, o)
    ensures (forall later :: AllZero(RowsOf(ExecFrom(s, later), o))) <==> StaysBalanced(s, o)
  {
    if StaysBalanced(s, o) {
      forall later ensures AllZero(RowsOf(ExecFrom(s, later), o)) {
        if RowsOf(s, o) == [] {
          SafelyUnpostedForever(s, later, o);
        } else {
          ZeroedForever(s, later, o);
        }
      }
    } else if RowsOf(s, o) == [] {
      var bad := OwingRun(s, o);
      assert !AllZero(RowsOf(ExecFrom(s, bad), o));
    } else {
      var bad := DisturbingRun(s, o);
      assert !AllZero(RowsOf(ExecFrom(s, bad), o));
    }
  }

  /**
   * After an uninterrupted refund of an order that was PAID and not yet reversed, posted or not, its
   * accounts stay at zero under every later step of every call if and only if no call still in
   * flight can leave them otherwise.
   */
  lemma ReversalStaysZeroExactly(actions: seq<Action>, pid: nat, o: nat, chargeback: bool)
    requires var s := Exec(actions);
      o < |s.orders| && pid !in s.jobs && WasPaid(s.orders[o].status) && !HasRefund(RowsOf(s, o))
    ensures var t := RefundCall(Exec(actions), pid, o, chargeback);
      && o < |t.orders|
      && ((forall later :: AllZero(RowsOf(ExecFrom(t, later), o))) <==> StaysBalanced(t, o))
  {
    EveryRunKeeps(actions);
    RefundZeroes(actions, pid, o, chargeback);
    RefundCallKeeps(Exec(actions), pid, o, chargeback);
    StaysZeroExactly(RefundCall(Exec(actions), pid, o, chargeback), o);
  }

  lemma RefundCallKeeps(s: Books, pid: nat, o: nat, chargeback: bool)
    requires Inv(s) && o < |s.orders| && pid !in s.jobs
    ensures var t := RefundCall(s, pid, o, chargeback);
      Inv(t) && (RowsOf(s, o) != [] ==> RowsOf(t, o) != [])
  {
    var s1 := Next(s, StartRefund(pid, o, chargeback));
    NextKeeps(s, StartRefund(pid, o, chargeback));
    NextKeeps(s1, Step(pid));
    NextKeeps(Next(s1, Step(pid)), Step(pid));
    RefundCallEffect(s, pid, o, chargeback);
    ReversalIsRefundBatch(s, o);
    if RowsOf(s, o) != [] {
      RowsStay(s, o, Reversal(RowsOf(s, o)), o);
    }
  }

  // ----- The race, concretely ------------------------------------------------------------------

  const SoldOrder := OrderFacts(0, S.AwaitingPayment, 1000, 0, 0, P.Buyer, 1000, 0, None)
  const SaleRow := Entry(0, Some(0), ProducerAccount, Sale, 1000, None)
  const CommissionRows := [
    Entry(0, Some(0), ProducerAccount, Commission, -100, Some(7)),
    Entry(0, Some(0), PromoterAccount, Commission, 100, Some(7))]

  const PaidOrder := SoldOrder.(status := S.Paid)
  const AccruedOrder := PaidOrder.(accrued := Some(Accrual(7, 100)))

  /** The order is sold and posted, its commission has accrued, a second posting has read both. */
  const RaceState := Books([AccruedOrder], [SaleRow], map[3 := Writing(0, [SaleRow] + CommissionRows)], map[])

  lemma RacePostings()
    ensures Posting(0, PaidOrder) == [SaleRow]
    ensures Posting(0, AccruedOrder) == [SaleRow] + CommissionRows
  {
    assert BasePosting(0, PaidOrder) == [SaleRow];
    assert BasePosting(0, AccruedOrder) == [SaleRow];
    assert CommissionPair(0, AccruedOrder) == CommissionRows;
  }

  lemma SalePosted()
    ensures PostAll([], [SaleRow]) == [SaleRow]
    ensures Rows([SaleRow], 0) == [SaleRow]
  {
    PostFresh([], [SaleRow]);
    RowsPush([], SaleRow, 0);
    assert [] + [SaleRow] == [SaleRow];
  }

  lemma PostingsOfTheRace()
    ensures Posting(0, PaidOrder) == [SaleRow]
    ensures Posting(0, AccruedOrder) == [SaleRow] + CommissionRows
    ensures PostAll([], [SaleRow]) == [SaleRow]
    ensures Rows([SaleRow], 0) == [SaleRow]
  {
    RacePostings();
    SalePosted();
  }

  lemma Then(s: Books, actions: seq<Action>, a: Action) returns (more: seq<Action>)
    requires Exec(actions) == s
    ensures Exec(more) == Next(s, a)
  {
    ExecPush(Init, actions, a);
    more := actions + [a];
  }

  /** A posting call of order 0, up to the point where it is about to write. */
  lemma PostingReads(s: Books, actions: seq<Action>, pid: nat) returns (more: seq<Action>)
    requires Exec(actions) == s && StatusIs(s, 0, S.Paid) && pid !in s.jobs
    ensures Exec(more) == Begin(s, pid, Writing(0, Posting(0, s.orders[0])))
  {
    more := Then(s, actions, StartPost(pid, 0));
    var s1 := Begin(s, pid, ReadingCommission(0));
    more := Then(s1, more, Step(pid));
    ReadStep(s1, pid, 0);
  }

  lemma PendingWrites(s: Books, actions: seq<Action>, pid: nat, batch: seq<Entry>) returns (more: seq<Action>)
    requires pid !in s.jobs && Exec(actions) == Begin(s, pid, Writing(0, batch))
    ensures Exec(more) == s.(entries := PostAll(s.entries, batch))
  {
    more := Then(Begin(s, pid, Writing(0, batch)), actions, Step(pid));
    assert Begin(s, pid, Writing(0, batch)).jobs - {pid} == s.jobs;
  }

  lemma OrderAccrues(s: Books, actions: seq<Action>, pid: nat, a: Accrual) returns (more: seq<Action>)
    requires Exec(actions) == s && StatusIs(s, 0, S.Paid) && s.orders[0].accrued.None? && pid !in s.jobs && a.amount > 0
    ensures Exec(more) == s.(orders := s.orders[0 := s.orders[0].(accrued := Some(a))])
  {
    more := Then(s, actions, StartAccrual(pid, 0, a));
    var s1 := Begin(s, pid, Accruing(0, a));
    more := Then(s1, more, Step(pid));
    AccrueStep(s1, pid, 0, a);
    assert s1.jobs - {pid} == s.jobs;
  }

  lemma PaidOrderReachable() returns (actions: seq<Action>)
    ensures Exec(actions) == Books([PaidOrder], [], map[], map[])
  {
    actions := Then(Init, [], PlaceOrder(SoldOrder));
    var s1 := Books([SoldOrder], [], map[], map[]);
    assert AmountsAgree(SoldOrder) && Init.orders + [SoldOrder] == [SoldOrder];
    actions := Then(s1, actions, MarkPaid(0));
  }

  lemma CommissionPostedReachable() returns (actions: seq<Action>)
    ensures Exec(actions) == Books([AccruedOrder], [SaleRow] + CommissionRows, map[], map[])
  {
    PostingsOfTheRace();
    actions := PaidOrderReachable();
    var paid := Books([PaidOrder], [], map[], map[]);
    actions := OrderAccrues(paid, actions, 2, Accrual(7, 100));
    var accrued := Books([AccruedOrder], [], map[], map[]);
    actions := PostingReads(accrued, actions, 1);
    PostingShape(0, AccruedOrder);
    PostFresh([], [SaleRow] + CommissionRows);
    actions := PendingWrites(accrued, actions, 1, [SaleRow] + CommissionRows);
  }

  lemma RaceReachable() returns (actions: seq<Action>)
    ensures Exec(actions) == RaceState
  {
    PostingsOfTheRace();
    actions := PaidOrderReachable();
    var paid := Books([PaidOrder], [], map[], map[]);
    actions := PostingReads(paid, actions, 1);
    actions := PendingWrites(paid, actions, 1, [SaleRow]);
    var posted := Books([PaidOrder], [SaleRow], map[], map[]);
    actions := OrderAccrues(posted, actions, 2, Accrual(7, 100));
    actions := PostingReads(Books([AccruedOrder], [SaleRow], map[], map[]), actions, 3);
  }

  lemma CommissionStillPending(rows: seq<Entry>, refunds: seq<Entry>)
    requires rows == [SaleRow] + refunds && Uniform(refunds, true)
    ensures !AllStored(rows, [SaleRow] + CommissionRows)
  {
    var batch := [SaleRow] + CommissionRows;
    assert batch[1] == CommissionRows[0];
    ClashesConcat([SaleRow], refunds, batch[1]);
  }

  lemma ReversalIsUniform(rows: seq<Entry>, o: nat)
    requires rows != [] && !HasRefund(rows) && OfOrder(rows, o)
    ensures OfOrder(Reversal(rows), o) && Uniform(Reversal(rows), true)
  {
    AccountsExact(rows);
    ReversalOfShape(rows, Accounts(rows));
  }

  lemma SaleRowReversed(entries: seq<Entry>)
    requires entries == [SaleRow]
    ensures Rows(entries, 0) == [SaleRow] && !HasRefund([SaleRow])
    ensures Rows(ReverseForOrder(entries, 0), 0) == [SaleRow] + Reversal([SaleRow])
    ensures Uniform(Reversal([SaleRow]), true)
  {
    SalePosted();
    assert [SaleRow][0].kind == Sale;
    ReversalIsUniform(entries, 0);
    PostByOrder(entries, Reversal(entries), 0, 0);
    ReversalZeroes(entries, 0, 7);
  }

  lemma PendingPairDisturbs(t: Books)
    requires 0 < |t.orders| && 3 in t.jobs && t.jobs[3] == Writing(0, [SaleRow] + CommissionRows)
    requires RowsOf(t, 0) == [SaleRow] + Reversal([SaleRow]) && Uniform(Reversal([SaleRow]), true)
    ensures !Undisturbed(t, 0)
  {
    CommissionStillPending(RowsOf(t, 0), Reversal([SaleRow]));
    assert !Harmless(t, t.jobs[3], 0);
  }

  lemma RefundOfRace()
    ensures var t := RefundCall(RaceState, 4, 0, false);
      0 < |t.orders| && RowsOf(t, 0) != [] && !Undisturbed(t, 0)
  {
    SaleRowReversed(RaceState.entries);
    RefundCallEffect(RaceState, 4, 0, false);
    PendingPairDisturbs(RefundCall(RaceState, 4, 0, false));
  }

  lemma RefundDuringPosting(actions: seq<Action>)
    requires Exec(actions) == RaceState
    ensures var t := RefundCall(RaceState, 4, 0, false);
      Zeroed(t, 0) && RowsOf(t, 0) != [] && !Undisturbed(t, 0)
  {
    EveryRunKeeps(actions);
    SaleRowReversed(RaceState.entries);
    RefundOfRace();
    RefundZeroes(actions, 4, 0, false);
    RefundCallKeeps(RaceState, 4, 0, false);
  }

  /**
   * The reversal does not always stay at zero: a posting that read its order before the refund and
   * writes after it leaves the refunded order's accounts unbalanced.
   */
  lemma PostingAcrossRefundBreaksIt()
    ensures exists actions, later :: var t := RefundCall(Exec(actions), 4, 0, false);
      AllZero(RowsOf(t, 0)) && !AllZero(RowsOf(ExecFrom(t, later), 0))
  {
    var actions := RaceReachable();
    RefundDuringPosting(actions);
    var later := DisturbingRun(RefundCall(Exec(actions), 4, 0, false), 0);
    assert !AllZero(RowsOf(ExecFrom(RefundCall(Exec(actions), 4, 0, false), later), 0));
  }

  /** The order is PAID; its posting has read everything and not yet written. */
  const UnpostedState := Books([PaidOrder], [], map[3 := Writing(0, [SaleRow])], map[])

  lemma UnpostedReachable() returns (actions: seq<Action>)
    ensures Exec(actions) == UnpostedState
  {
    PostingsOfTheRace();
    actions := PaidOrderReachable();
    actions := PostingReads(Books([PaidOrder], [], map[], map[]), actions, 3);
  }

  /** The refund found nothing to reverse and ended; the posting still holds its batch. */
  lemma RefundFindsNothing()
    ensures var t := RefundCall(UnpostedState, 4, 0, false);
      && 0 < |t.orders| && t.orders[0].status == S.Refunded
      && t.entries == [] && 3 in t.jobs && t.jobs[3] == Writing(0, [SaleRow])
  {
    RefundCallEffect(UnpostedState, 4, 0, false);
  }

  lemma SaleWritten(t: Books)
    requires t.entries == [] && 3 in t.jobs && t.jobs[3] == Writing(0, [SaleRow])
    ensures Next(t, Step(3)).orders == t.orders && RowsOf(Next(t, Step(3)), 0) == [SaleRow]
  {
    WriteBatchStep(t, 3, 0, [SaleRow]);
    SalePosted();
  }

  /**
   * The worst case: a refund that runs before the first posting is written finds nothing to reverse,
   * and the whole sale is then posted for an order that is already refunded.
   */
  lemma SalePostedAfterRefund()
    ensures exists actions :: var s := Next(RefundCall(Exec(actions), 4, 0, false), Step(3));
      && 0 < |s.orders| && s.orders[0].status == S.Refunded
      && RowsOf(s, 0) == [SaleRow] && Balance(RowsOf(s, 0), ProducerAccount) == 1000
  {
    var actions := UnpostedReachable();
    RefundFindsNothing();
    SaleWritten(RefundCall(UnpostedState, 4, 0, false));
    SumWhen(true, SaleRow, InAccount(ProducerAccount));
    assert RowsOf(Next(RefundCall(Exec(actions), 4, 0, false), Step(3)), 0) == [SaleRow];
  }
}
