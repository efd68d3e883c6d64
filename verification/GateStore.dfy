/** The gate as the services and the device code run it, with tables updated in place. */
module GateStore {
  import opened Base
  import opened Money
  import opened GateModel
  import opened GateInvariant
  import opened GateGuarantees
  import S = SalesModel

  /** Processing a batch item by item: the final tables and the result of each item. */
  datatype Batch = Batch(server: Server, results: seq<SyncResult>)

  function SyncBatch(s: Server, eventId: nat, device: nat, tokens: seq<nat>): Batch {
    if tokens == [] then Batch(s, [])
    else
      var n := |tokens| - 1;
      var before := SyncBatch(s, eventId, device, tokens[..n]);
      var r := SyncItem(before.server, eventId, device, tokens[n]);
      Batch(r.server, before.results + [SyncResult(tokens[n], r.outcome)])
  }

  lemma SyncBatchNext(s: Server, eventId: nat, device: nat, tokens: seq<nat>, k: nat)
    requires k < |tokens|
    ensures var before := SyncBatch(s, eventId, device, tokens[..k]);
      var r := SyncItem(before.server, eventId, device, tokens[k]);
      SyncBatch(s, eventId, device, tokens[..k + 1])
      == Batch(r.server, before.results + [SyncResult(tokens[k], r.outcome)])
  {
    assert tokens[..k + 1][..k] == tokens[..k];
  }

  /** One answer per item, in the order of the items. */
  lemma {:induction false} SyncBatchAnswers(s: Server, eventId: nat, device: nat, tokens: seq<nat>)
    ensures var results := SyncBatch(s, eventId, device, tokens).results;
      |results| == |tokens| && forall k :: 0 <= k < |tokens| ==> results[k].token == tokens[k]
  {
    if tokens != [] {
      SyncBatchAnswers(s, eventId, device, tokens[..|tokens| - 1]);
    }
  }

  /**
   * Resending is harmless: after a batch was processed, the same device sending it again
   * changes nothing, and no item is applied a second time.
   */
  lemma {:induction false} ResendChangesNothing(s: Server, eventId: nat, device: nat, tokens: seq<nat>, again: seq<nat>)
    requires ServerInv(s) && (forall t :: t in again ==> t in tokens)
    ensures var first := SyncBatch(s, eventId, device, tokens).server;
      var second := SyncBatch(first, eventId, device, again);
      && second.server == first
      && (forall k :: 0 <= k < |second.results| ==> second.results[k].outcome != Applied)
    decreases |again|
  {
    var first := SyncBatch(s, eventId, device, tokens).server;
    SyncBatchSettles(s, eventId, device, tokens);
    if again != [] {
      var n := |again| - 1;
      ResendChangesNothing(s, eventId, device, tokens, again[..n]);
      SyncItemExact(first, eventId, device, again[n]);
      assert again[n] in tokens;
    }
  }

  /** No ticket of the event with one of these tokens is VALID. */
  predicate NoneValid(tickets: seq<Ticket>, eventId: nat, tokens: seq<nat>) {
    forall t :: 0 <= t < |tickets| ==>
      tickets[t].tokenHash.token in tokens && tickets[t].eventId == eventId ==> tickets[t].status != S.Valid
  }

  lemma SyncItemSettles(s: Server, eventId: nat, device: nat, tokens: seq<nat>, token: nat)
    requires ServerInv(s) && NoneValid(s.tickets, eventId, tokens)
    ensures NoneValid(SyncItem(s, eventId, device, token).server.tickets, eventId, tokens + [token])
  {
    SyncItemExact(s, eventId, device, token);
    FindByHashExact(s.tickets, HashOf(token));
    var after := SyncItem(s, eventId, device, token).server.tickets;
    forall t | 0 <= t < |after| && after[t].tokenHash.token in tokens + [token] && after[t].eventId == eventId
      ensures after[t].status != S.Valid
    {
      if after[t].tokenHash.token == token && s.tickets[t].status == S.Valid {
        assert s.tickets[t] == Ticket(eventId, HashOf(token), S.Valid);
      }
    }
  }

  /** After a batch no ticket of this event that it named is still VALID. */
  lemma {:induction false} SyncBatchSettles(s: Server, eventId: nat, device: nat, tokens: seq<nat>)
    requires ServerInv(s)
    ensures ServerInv(SyncBatch(s, eventId, device, tokens).server)
    ensures NoneValid(SyncBatch(s, eventId, device, tokens).server.tickets, eventId, tokens)
  {
    if tokens != [] {
      var n := |tokens| - 1;
      SyncBatchSettles(s, eventId, device, tokens[..n]);
      var before := SyncBatch(s, eventId, device, tokens[..n]).server;
      SyncItemExact(before, eventId, device, tokens[n]);
      SyncItemSettles(before, eventId, device, tokens[..n], tokens[n]);
      assert tokens == tokens[..n] + [tokens[n]];
    }
  }

  class CheckinService {
    var tickets: seq<Ticket>
    var rows: seq<Row>

    function Tables(): Server
      reads this
    {
      Server(tickets, rows)
    }

    ghost predicate Valid()
      reads this
    {
      ServerInv(Tables())
    }

    constructor ()
      ensures Valid() && tickets == [] && rows == []
    {
      tickets, rows := [], [];
    }

    method FindByTokenHash(h: Hash) returns (found: Option<nat>)
      ensures found == FindByHash(tickets, h)
    {
      for k := 0 to |tickets|
        invariant FindByHash(tickets[..k], h) == None
      {
        assert tickets[..k + 1][..k] == tickets[..k];
        if tickets[k].tokenHash == h {
          FoundStays(tickets, h, k + 1);
          return Some(k);
        }
      }
      assert tickets[..|tickets|] == tickets;
      return None;
    }

    method FindByTicket(t: nat) returns (found: Option<Row>)
      ensures found == FindRow(rows, t)
    {
      var k := 0;
      while k < |rows|
        invariant k <= |rows| && FindRow(rows, t) == FindRow(rows[k..], t)
      {
        if rows[k].ticketId == t {
          return Some(rows[k]);
        }
        assert rows[k..][1..] == rows[k + 1..];
        k := k + 1;
      }
      return None;
    }

    /** Guarded status update: only from a status in `from`. */
    method UpdateStatus(t: nat, from: set<S.TicketStatus>, to: S.TicketStatus) returns (changed: bool)
      requires t < |tickets|
      modifies this`tickets
      ensures changed == (old(tickets)[t].status in from)
      ensures Tables() == if changed then SetStatus(old(Tables()), t, to) else old(Tables())
    {
      changed := tickets[t].status in from;
      if changed {
        tickets := tickets[t := tickets[t].(status := to)];
      }
    }

    method CreateRow(row: Row) returns (created: bool)
      modifies this`rows
      ensures created == FindRow(old(rows), row.ticketId).None?
      ensures rows == GateModel.CreateRow(old(rows), row)
      ensures rows == if created then old(rows) + [row] else old(rows)
    {
      var existing := FindByTicket(row.ticketId);
      created := existing.None?;
      if created {
        rows := rows + [row];
      }
    }

    method DeleteByTicket(t: nat)
      modifies this`rows
      ensures rows == DeleteRows(old(rows), t)
    {
      var kept: seq<Row> := [];
      for k := 0 to |rows|
        invariant kept == DeleteRows(rows[..k], t) && rows == old(rows)
      {
        assert rows[..k + 1][..k] == rows[..k];
        if rows[k].ticketId != t {
          kept := kept + [rows[k]];
        }
      }
      assert rows[..|rows|] == rows;
      rows := kept;
    }

    method Admit(t: nat, device: Option<nat>) returns (v: Validation)
      requires Valid() && t < |tickets|
      modifies this
      ensures Valid()
      ensures Admitted(Tables(), v) == GateModel.Admit(old(Tables()), t, device)
      ensures v.Accepted? <==> old(tickets)[t].status == S.Valid
      ensures AnswerFits(old(Tables()), t, old(tickets)[t].eventId, v)
    {
      AdmitExact(Tables(), t, device);
      var status := tickets[t].status;
      if status != S.Valid {
        var reason := StatusReason(status);
        var existing: Option<Row> := None;
        if reason == AlreadyCheckedIn {
          existing := FindByTicket(t);
        }
        return Refused(reason, existing);
      }
      var transitioned := UpdateStatus(t, {S.Valid}, S.CheckedIn);
      var created := CreateRow(Row(t, tickets[t].eventId, device));
      return Accepted(t);
    }

    method ValidateAndCheckIn(eventId: nat, token: nat, device: Option<nat>) returns (v: Validation)
      requires Valid()
      modifies this
      ensures Valid()
      ensures Admitted(Tables(), v) == Validate(old(Tables()), eventId, token, device)
      ensures ScanFits(old(Tables()), eventId, token, device, v, Tables())
    {
      ValidateExact(Tables(), eventId, token, device);
      FindByHashExact(tickets, HashOf(token));
      var found := FindByTokenHash(HashOf(token));
      if found.None? {
        return Refused(NotFound, None);
      }
      if tickets[found.value].eventId != eventId {
        return Refused(WrongEvent, None);
      }
      v := Admit(found.value, device);
    }

    /** False is the conflict or not-found error: nothing changed. */
    method UndoCheckIn(eventId: nat, t: nat) returns (undone: bool)
      requires Valid()
      modifies this
      ensures Valid()
      ensures undone == Undo(old(Tables()), eventId, t).Some?
      ensures Tables() == if undone then Undo(old(Tables()), eventId, t).value else old(Tables())
      ensures UndoFits(old(Tables()), eventId, t, undone, Tables())
    {
      UndoExact(Tables(), eventId, t);
      if t >= |tickets| || tickets[t].eventId != eventId || tickets[t].status != S.CheckedIn {
        return false;
      }
      UndoKeeps(Tables(), eventId, t);
      var reverted := UpdateStatus(t, {S.CheckedIn}, S.Valid);
      DeleteByTicket(t);
      return true;
    }

    /** The sync loop: one result per item, in order, each item against the tables it finds. */
    method SyncOfflineBatch(eventId: nat, device: nat, tokens: seq<nat>) returns (results: seq<SyncResult>)
      requires Valid()
      modifies this
      ensures Valid()
      ensures Batch(Tables(), results) == SyncBatch(old(Tables()), eventId, device, tokens)
      ensures |results| == |tokens|
      ensures forall k :: 0 <= k < |tokens| ==> results[k].token == tokens[k]
    {
      results := [];
      for k := 0 to |tokens|
        invariant Valid()
        invariant Batch(Tables(), results) == SyncBatch(old(Tables()), eventId, device, tokens[..k])
      {
        SyncBatchNext(old(Tables()), eventId, device, tokens, k);
        var outcome := SyncOne(eventId, device, tokens[k]);
        results := results + [SyncResult(tokens[k], outcome)];
      }
      assert tokens[..|tokens|] == tokens;
      SyncBatchAnswers(old(Tables()), eventId, device, tokens);
    }

    method SyncOne(eventId: nat, device: nat, token: nat) returns (outcome: Outcome)
      requires Valid()
      modifies this
      ensures Valid()
      ensures Synced(Tables(), outcome) == SyncItem(old(Tables()), eventId, device, token)
      ensures SyncFits(old(Tables()), eventId, device, token, outcome, Tables())
    {
      SyncItemExact(Tables(), eventId, device, token);
      FindByHashExact(tickets, HashOf(token));
      var found := FindByTokenHash(HashOf(token));
      if found.None? {
        return RejectedItem(NotFound);
      }
      var t := found.value;
      var ticket := tickets[t];
      if ticket.eventId != eventId {
        return RejectedItem(WrongEvent);
      }
      if ticket.status in {S.TicketCancelled, S.TicketRefunded, S.Blocked} {
        return RejectedItem(StatusReason(ticket.status));
      }
      var existing := FindByTicket(t);
      if existing.Some? {
        return if existing.value.device == Some(device) then Duplicate else Conflict;
      }
      var created := CreateRow(Row(t, eventId, Some(device)));
      if !created {
        return Conflict;
      }
      var changed := UpdateStatus(t, {S.Valid}, S.CheckedIn);
      return Applied;
    }

    method ReadDashboard(e: nat) returns (d: Dashboard)
      requires Valid()
      ensures d == GateModel.ReadDashboard(Tables(), e)
      ensures 0 <= d.present <= d.sold && 0 <= d.entryRatePercent <= 100
    {
      DashboardConsistent(Tables(), e);
      var sold := Sum(tickets, SoldIn(e));
      var present := Sum(rows, PresentIn(e));
      var absent := if sold - present > 0 then sold - present else 0;
      var rate := if sold > 0 then RoundDiv(present * 100, sold) else 0;
      return Dashboard(sold, present, absent, rate);
    }
  }

  lemma {:induction false} FoundStays(tickets: seq<Ticket>, h: Hash, n: nat)
    requires n <= |tickets| && FindByHash(tickets[..n], h).Some?
    ensures FindByHash(tickets, h) == FindByHash(tickets[..n], h)
  {
    if n < |tickets| {
      var m := |tickets| - 1;
      assert tickets[..m][..n] == tickets[..n];
      FoundStays(tickets[..m], h, n);
    } else {
      assert tickets[..n] == tickets;
    }
  }

  class DeviceStorage {
    var id: nat
    var eventId: nat
    var pack: set<Hash>
    var used: set<Hash>
    var queue: seq<Queued>

    function Stored(): Device
      reads this
    {
      Device(id, eventId, pack, used, queue)
    }

    ghost predicate Valid()
      reads this
    {
      DeviceOk(Stored())
    }

    constructor (id: nat, eventId: nat)
      ensures Valid() && Stored() == Device(id, eventId, {}, {}, [])
    {
      this.id, this.eventId := id, eventId;
      pack, used, queue := {}, {}, [];
    }

    method SavePack(hashes: seq<Hash>)
      requires Valid()
      modifies this`pack
      ensures Valid() && forall h :: h in pack <==> h in hashes
    {
      pack := set h | h in hashes;
    }

    method ValidateLocally(token: nat) returns (outcome: LocalOutcome)
      requires Valid()
      modifies this
      ensures Valid()
      ensures Scanned(Stored(), outcome) == GateModel.ValidateLocally(old(Stored()), token)
      ensures outcome == LocalAccepted <==> HashOf(token) in pack && HashOf(token) !in old(used)
      ensures outcome == LocalAlreadyUsed <==> HashOf(token) in pack && HashOf(token) in old(used)
      ensures pack == old(pack)
      ensures outcome == LocalAccepted ==>
        used == old(used) + {HashOf(token)} && queue == old(queue) + [Queued(token, HashOf(token))]
      ensures outcome != LocalAccepted ==> used == old(used) && queue == old(queue)
    {
      ScanKeeps(Stored(), token);
      var h := HashOf(token);
      if h !in pack {
        return LocalNotFound;
      }
      if h in used {
        return LocalAlreadyUsed;
      }
      used := used + {h};
      queue := queue + [Queued(token, h)];
      return LocalAccepted;
    }

    method RemoveFromQueue(drop: set<nat>)
      modifies this`queue
      ensures queue == RemoveTokens(old(queue), drop)
      ensures forall q :: q in queue <==> q in old(queue) && q.token !in drop
    {
      RemoveTokensExact(queue, drop);
      var kept: seq<Queued> := [];
      for k := 0 to |queue|
        invariant kept == RemoveTokens(queue[..k], drop) && queue == old(queue)
      {
        assert queue[..k + 1][..k] == queue[..k];
        if queue[k].token !in drop {
          kept := kept + [queue[k]];
        }
      }
      assert queue[..|queue|] == queue;
      queue := kept;
    }

    method ClearUsedHash(h: Hash)
      modifies this`used
      ensures used == old(used) - {h}
    {
      used := used - {h};
    }

    /**
     * The response loop: every answered token is settled, a conflict also forgets the hash of
     * the entry that was sent for it. Returns how many were settled and how many conflicted.
     */
    method SettleSync(sent: seq<Queued>, results: seq<SyncResult>) returns (settledCount: nat, conflicts: nat)
      requires Valid() && SentOk(sent)
      modifies this
      ensures Valid()
      ensures Stored() == GateModel.SettleSync(old(Stored()), sent, results)
      ensures SettleFits(old(Stored()), sent, results, Stored())
      ensures settledCount == |results|
      ensures conflicts == Sum(results, IsConflict)
    {
      ghost var before := Stored();
      var settled: set<nat>;
      settled, conflicts := ReadResults(sent, results);
      RemoveFromQueue(settled);
      settledCount := |results|;
      assert Stored() == GateModel.SettleSync(before, sent, results);
      SettleKeeps(before, sent, results);
    }

    method ReadResults(sent: seq<Queued>, results: seq<SyncResult>) returns (settled: set<nat>, conflicts: nat)
      requires SentOk(sent)
      modifies this`used
      ensures used == old(used) - ConflictHashes(sent, results)
      ensures settled == SettledTokens(results) && conflicts == Sum(results, IsConflict)
    {
      var byToken := ByToken(sent);
      settled, conflicts := {}, 0;
      for k := 0 to |results|
        invariant ReadUpTo(sent, results[..k], old(used), used, settled, conflicts)
      {
        var r := results[k];
        ReadOneMore(sent, results[..k], r, old(used), used, settled, conflicts);
        assert results[..k + 1] == results[..k] + [r];
        settled := settled + {r.token};
        if r.outcome == Conflict {
          conflicts := conflicts + 1;
          if r.token in byToken {
            ClearUsedHash(byToken[r.token]);
          }
        }
      }
      assert results[..|results|] == results;
    }
  }

  /** The Map from token to its queued hash, as the queue stood when the request was sent. */
  function ByToken(sent: seq<Queued>): (m: map<nat, Hash>)
    requires SentOk(sent)
    ensures forall t :: t in m ==> m[t] == HashOf(t)
    ensures forall q :: q in sent ==> q.token in m
    ensures forall t :: t in m ==> exists q :: q in sent && q.token == t
  {
    if sent == [] then map[]
    else
      var n := |sent| - 1;
      assert sent == sent[..n] + [sent[n]];
      ByToken(sent[..n])[sent[n].token := sent[n].hash]
  }

  const IsConflict: SyncResult -> int := (r: SyncResult) => if r.outcome == Conflict then 1 else 0

  /** What the response loop has done after these results. */
  ghost predicate ReadUpTo(sent: seq<Queued>, results: seq<SyncResult>, before: set<Hash>,
      used: set<Hash>, settled: set<nat>, conflicts: nat) {
    && used == before - ConflictHashes(sent, results)
    && settled == SettledTokens(results) && conflicts == Sum(results, IsConflict)
  }

  lemma ReadOneMore(sent: seq<Queued>, results: seq<SyncResult>, r: SyncResult, before: set<Hash>,
      used: set<Hash>, settled: set<nat>, conflicts: nat)
    requires SentOk(sent) && ReadUpTo(sent, results, before, used, settled, conflicts)
    ensures r.outcome == Conflict && r.token in ByToken(sent) ==>
      ReadUpTo(sent, results + [r], before, used - {ByToken(sent)[r.token]}, settled + {r.token}, conflicts + 1)
    ensures r.outcome == Conflict && r.token !in ByToken(sent) ==>
      ReadUpTo(sent, results + [r], before, used, settled + {r.token}, conflicts + 1)
    ensures r.outcome != Conflict ==>
      ReadUpTo(sent, results + [r], before, used, settled + {r.token}, conflicts)
  {
    SumPush(results, r, IsConflict);
    ConflictHashesPush(sent, results, r);
    assert SettledTokens(results + [r]) == SettledTokens(results) + {r.token};
  }

  lemma ConflictHashesPush(sent: seq<Queued>, results: seq<SyncResult>, r: SyncResult)
    requires SentOk(sent)
    ensures ConflictHashes(sent, results + [r]) == ConflictHashes(sent, results) +
      if r.outcome == Conflict && r.token in ByToken(sent) then {ByToken(sent)[r.token]} else {}
  {
    forall q | q in sent ensures q.hash == HashOf(q.token) {
    }
  }
}
