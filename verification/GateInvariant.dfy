/** What every server operation of the gate keeps. */
module GateInvariant {
  import opened Base
  import opened Money
  import opened GateModel
  import S = SalesModel

  /** The equivalence: a ticket is CHECKED_IN exactly when it has exactly one check-in row. */
  ghost predicate RowsMatch(s: Server) {
    forall t: nat :: RowsOf(s.rows, t) == if t < |s.tickets| && s.tickets[t].status == S.CheckedIn then 1 else 0
  }

  ghost predicate RowEvents(s: Server) {
    forall k :: 0 <= k < |s.rows| ==>
      s.rows[k].ticketId < |s.tickets| && s.rows[k].eventId == s.tickets[s.rows[k].ticketId].eventId
  }

  ghost predicate TicketsOk(tickets: seq<Ticket>) {
    && (forall t :: 0 <= t < |tickets| ==> tickets[t].status != S.PendingIssue)
    && (forall t, u :: 0 <= t < u < |tickets| ==> tickets[t].tokenHash != tickets[u].tokenHash)
  }

  ghost predicate ServerInv(s: Server) {
    RowsMatch(s) && RowEvents(s) && TicketsOk(s.tickets)
  }

  // ----- Lookups ------------------------------------------------------------------------------

  /** A row is found exactly when the ticket has one. */
  lemma {:induction false} FindRowExact(rows: seq<Row>, t: nat)
    ensures FindRow(rows, t).Some? <==> RowsOf(rows, t) > 0
    ensures FindRow(rows, t).Some? ==> FindRow(rows, t).value in rows && FindRow(rows, t).value.ticketId == t
    ensures RowsOf(rows, t) >= 0
    decreases |rows|
  {
    if rows != [] {
      assert rows == [rows[0]] + rows[1..];
      SumConcat([rows[0]], rows[1..], RowFor(t));
      SumPush([], rows[0], RowFor(t));
      FindRowExact(rows[1..], t);
    }
  }

  lemma {:induction false} FindByHashExact(tickets: seq<Ticket>, h: Hash)
    ensures var r := FindByHash(tickets, h);
      && (r.Some? ==> r.value < |tickets| && tickets[r.value].tokenHash == h)
      && (r.None? ==> forall t :: 0 <= t < |tickets| ==> tickets[t].tokenHash != h)
  {
    if tickets != [] {
      FindByHashExact(tickets[..|tickets| - 1], h);
    }
  }

  lemma {:induction false} DeleteRowsCounts(rows: seq<Row>, t: nat, u: nat)
    ensures RowsOf(DeleteRows(rows, t), u) == if u == t then 0 else RowsOf(rows, u)
    ensures forall r :: r in DeleteRows(rows, t) ==> r in rows
  {
    if rows != [] {
      var n := |rows| - 1;
      DeleteRowsCounts(rows[..n], t, u);
      if rows[n].ticketId != t {
        SumPush(DeleteRows(rows[..n], t), rows[n], RowFor(u));
      } else {
        assert DeleteRows(rows, t) == DeleteRows(rows[..n], t);
      }
    }
  }

  // ----- Operations -------------------------------------------------------------------------------

  /** One more row and a CHECKED_IN status, together. */
  lemma CheckInKeeps(s: Server, t: nat, device: Option<nat>)
    requires ServerInv(s) && t < |s.tickets| && s.tickets[t].status == S.Valid
    ensures ServerInv(SetStatus(s, t, S.CheckedIn).(rows := s.rows + [Row(t, s.tickets[t].eventId, device)]))
  {
    var row := Row(t, s.tickets[t].eventId, device);
    var s' := SetStatus(s, t, S.CheckedIn).(rows := s.rows + [row]);
    forall u: nat
      ensures RowsOf(s'.rows, u) == if u < |s'.tickets| && s'.tickets[u].status == S.CheckedIn then 1 else 0
    {
      SumPush(s.rows, row, RowFor(u));
      assert RowsOf(s.rows, u) == if u < |s.tickets| && s.tickets[u].status == S.CheckedIn then 1 else 0;
    }
  }

  /** A check-in row of the ticket. */
  predicate RowOf(rows: seq<Row>, t: nat, row: Row) {
    row in rows && row.ticketId == t
  }

  /** What a scan at event `e` must answer about ticket `t`, told from its row in the table. */
  predicate AnswerFits(s: Server, t: nat, e: nat, v: Validation)
    requires t < |s.tickets|
  {
    if s.tickets[t].eventId != e then v == Refused(WrongEvent, None)
    else
      match s.tickets[t].status
      case Valid => v == Accepted(t)
      case CheckedIn => v.Refused? && v.reason == AlreadyCheckedIn && v.existing.Some? && RowOf(s.rows, t, v.existing.value)
      case Blocked => v == Refused(IsBlocked, None)
      case TicketCancelled => v == Refused(IsCancelled, None)
      case TicketRefunded => v == Refused(IsRefunded, None)
      case PendingIssue => v == Refused(NotIssued, None)
  }

  /** Ticket `t` was let in: it is CHECKED_IN and has one more row; nothing else changed. */
  predicate LetIn(s: Server, t: nat, device: Option<nat>, s': Server)
    requires t < |s.tickets|
  {
    && s'.tickets == s.tickets[t := Ticket(s.tickets[t].eventId, s.tickets[t].tokenHash, S.CheckedIn)]
    && s'.rows == s.rows + [Row(t, s.tickets[t].eventId, device)]
  }

  /**
   * Online admission: accepted exactly when the ticket is VALID, and then it becomes
   * CHECKED_IN with its single row; a refusal changes nothing and tells the ticket's status, an
   * already-used one with the existing row.
   */
  lemma AdmitExact(s: Server, t: nat, device: Option<nat>)
    requires ServerInv(s) && t < |s.tickets|
    ensures var r := Admit(s, t, device);
      && ServerInv(r.server)
      && (r.validation.Accepted? <==> s.tickets[t].status == S.Valid)
      && AnswerFits(s, t, s.tickets[t].eventId, r.validation)
      && (r.validation.Accepted? ==> LetIn(s, t, device, r.server))
      && (r.validation.Refused? ==> r.server == s)
  {
    FindRowExact(s.rows, t);
    assert RowsOf(s.rows, t) == if s.tickets[t].status == S.CheckedIn then 1 else 0;
    if s.tickets[t].status == S.Valid {
      CheckInKeeps(s, t, device);
    }
  }

  /** A ticket that is neither VALID nor CHECKED_IN is refused with the reason of its status, in any state. */
  lemma ClosedTicketRefused(s: Server, t: nat, device: Option<nat>)
    requires t < |s.tickets| && s.tickets[t].status !in {S.Valid, S.CheckedIn}
    ensures Admit(s, t, device).server == s && AnswerFits(s, t, s.tickets[t].eventId, Admit(s, t, device).validation)
  {
  }

  /** What an online scan does, told from the ticket that carries the token. */
  ghost predicate ScanFits(s: Server, e: nat, token: nat, device: Option<nat>, v: Validation, s': Server) {
    && (FreshHash(s.tickets, HashOf(token)) <==> v == Refused(NotFound, None))
    && (forall t :: 0 <= t < |s.tickets| && s.tickets[t].tokenHash == HashOf(token) ==> AnswerFits(s, t, e, v))
    && (v.Accepted? <==> exists t :: 0 <= t < |s.tickets| && s.tickets[t] == Ticket(e, HashOf(token), S.Valid))
    && (v.Accepted? ==>
          && v.ticketId < |s.tickets| && s.tickets[v.ticketId] == Ticket(e, HashOf(token), S.Valid)
          && LetIn(s, v.ticketId, device, s'))
    && (v.Refused? ==> s' == s)
  }

  /**
   * The online scan: NOT_FOUND exactly when no ticket carries the token; otherwise the answer is that
   * of the one ticket that does - WRONG_EVENT, let in when it is VALID, or refused with its status.
   */
  lemma ValidateExact(s: Server, eventId: nat, token: nat, device: Option<nat>)
    requires ServerInv(s)
    ensures var r := Validate(s, eventId, token, device);
      ServerInv(r.server) && ScanFits(s, eventId, token, device, r.validation, r.server)
  {
    FindByHashExact(s.tickets, HashOf(token));
    var found := FindByHash(s.tickets, HashOf(token));
    if found.Some? {
      AdmitExact(s, found.value, device);
      forall t | 0 <= t < |s.tickets| && s.tickets[t].tokenHash == HashOf(token) ensures t == found.value {
      }
    }
  }

  lemma UndoOfCheckIn(s: Server, t: nat, row: Row)
    requires t < |s.tickets| && s.tickets[t].status == S.Valid && row.ticketId == t && RowsOf(s.rows, t) == 0
    ensures Undo(SetStatus(s, t, S.CheckedIn).(rows := s.rows + [row]), s.tickets[t].eventId, t) == Some(s)
  {
    var r := SetStatus(s, t, S.CheckedIn).(rows := s.rows + [row]);
    assert r.rows[..|s.rows|] == s.rows;
    NothingToDelete(s.rows, t);
    assert DeleteRows(r.rows, t) == s.rows;
    assert SetStatus(r, t, S.Valid).tickets == s.tickets;
  }

  /** Undo is exactly inverse to admission: it restores status and rows of an admitted ticket. */
  lemma UndoInverts(s: Server, t: nat, device: Option<nat>)
    requires ServerInv(s) && t < |s.tickets| && s.tickets[t].status == S.Valid
    ensures Undo(Admit(s, t, device).server, s.tickets[t].eventId, t) == Some(s)
  {
    AdmitExact(s, t, device);
    assert RowsOf(s.rows, t) == 0;
    UndoOfCheckIn(s, t, Row(t, s.tickets[t].eventId, device));
  }

  lemma {:induction false} NothingToDelete(rows: seq<Row>, t: nat)
    requires RowsOf(rows, t) == 0
    ensures DeleteRows(rows, t) == rows
  {
    if rows != [] {
      SumNonNegative(rows[..|rows| - 1], RowFor(t));
      NothingToDelete(rows[..|rows| - 1], t);
    }
  }

  /** What an undo must do, told from the ticket's row. */
  ghost predicate UndoFits(s: Server, e: nat, t: nat, undone: bool, s': Server) {
    && (undone <==> t < |s.tickets| && s.tickets[t].eventId == e && s.tickets[t].status == S.CheckedIn)
    && (!undone ==> s' == s)
    && (undone ==>
          && s'.tickets == s.tickets[t := Ticket(e, s.tickets[t].tokenHash, S.Valid)]
          && |s'.rows| == |s.rows| - 1
          && (forall r :: r in s'.rows <==> r in s.rows && r.ticketId != t))
  }

  lemma {:induction false} DeleteRowsExact(rows: seq<Row>, t: nat)
    ensures |DeleteRows(rows, t)| == |rows| - RowsOf(rows, t)
    ensures forall r :: r in DeleteRows(rows, t) <==> r in rows && r.ticketId != t
  {
    if rows != [] {
      var n := |rows| - 1;
      DeleteRowsExact(rows[..n], t);
      assert rows == rows[..n] + [rows[n]];
    }
  }

  /** An undo goes through exactly for a checked-in ticket of the event; its one row goes, no other does. */
  lemma UndoExact(s: Server, eventId: nat, t: nat)
    requires ServerInv(s)
    ensures var r := Undo(s, eventId, t); UndoFits(s, eventId, t, r.Some?, if r.Some? then r.value else s)
  {
    DeleteRowsExact(s.rows, t);
    assert RowsOf(s.rows, t) == if t < |s.tickets| && s.tickets[t].status == S.CheckedIn then 1 else 0;
  }

  lemma UndoKeeps(s: Server, eventId: nat, t: nat)
    requires ServerInv(s) && Undo(s, eventId, t).Some?
    ensures ServerInv(Undo(s, eventId, t).value)
  {
    var s' := Undo(s, eventId, t).value;
    forall u: nat
      ensures RowsOf(s'.rows, u) == if u < |s'.tickets| && s'.tickets[u].status == S.CheckedIn then 1 else 0
    {
      DeleteRowsCounts(s.rows, t, u);
      assert RowsOf(s.rows, u) == if u < |s.tickets| && s.tickets[u].status == S.CheckedIn then 1 else 0;
    }
    forall k | 0 <= k < |s'.rows|
      ensures s'.rows[k].ticketId < |s'.tickets| && s'.rows[k].eventId == s'.tickets[s'.rows[k].ticketId].eventId
    {
      DeleteRowsCounts(s.rows, t, t);
      assert s'.rows[k] in s.rows;
    }
  }

  /** The ticket has its check-in row, so it can never be admitted again without an undo. */
  ghost predicate HasRow(s: Server, h: Hash) {
    exists t :: 0 <= t < |s.tickets| && s.tickets[t].tokenHash == h && s.tickets[t].status == S.CheckedIn
  }

  /** The answer to a synced item about ticket `t`, told from its row in the table. */
  ghost predicate OutcomeFits(s: Server, t: nat, e: nat, device: nat, o: Outcome)
    requires t < |s.tickets|
  {
    if s.tickets[t].eventId != e then o == RejectedItem(WrongEvent)
    else
      match s.tickets[t].status
      case Valid => o == Applied
      case CheckedIn => exists row :: RowOf(s.rows, t, row) && o == if row.device == Some(device) then Duplicate else Conflict
      case Blocked => o == RejectedItem(IsBlocked)
      case TicketCancelled => o == RejectedItem(IsCancelled)
      case TicketRefunded => o == RejectedItem(IsRefunded)
      case PendingIssue => false
  }

  /** What syncing one item does, told from the ticket that carries the token. */
  ghost predicate SyncFits(s: Server, e: nat, device: nat, token: nat, o: Outcome, s': Server) {
    && (FreshHash(s.tickets, HashOf(token)) <==> o == RejectedItem(NotFound))
    && (forall t :: 0 <= t < |s.tickets| && s.tickets[t].tokenHash == HashOf(token) ==> OutcomeFits(s, t, e, device, o))
    && (o == Applied ==>
          exists t :: 0 <= t < |s.tickets| && s.tickets[t] == Ticket(e, HashOf(token), S.Valid) && LetIn(s, t, Some(device), s'))
    && (o != Applied ==> s' == s)
  }

  /**
   * A synced item: applied exactly when its ticket is VALID in this event; otherwise nothing
   * changes: an unknown, foreign or closed ticket is rejected with its reason, and a checked-in one
   * is this device's own duplicate or a conflict with whoever holds the row.
   */
  lemma SyncItemExact(s: Server, eventId: nat, device: nat, token: nat)
    requires ServerInv(s)
    ensures var r := SyncItem(s, eventId, device, token);
      && ServerInv(r.server)
      && SyncFits(s, eventId, device, token, r.outcome, r.server)
      && (r.outcome == Applied <==>
            exists t :: 0 <= t < |s.tickets| && s.tickets[t] == Ticket(eventId, HashOf(token), S.Valid))
      && (r.outcome == Applied ==>
            var t := FindByHash(s.tickets, HashOf(token)).value;
            && t < |s.tickets| && s.tickets[t].status == S.Valid
            && r.server == SetStatus(s, t, S.CheckedIn).(rows := s.rows + [Row(t, eventId, Some(device))]))
      && (!r.outcome.RejectedItem? ==> HasRow(r.server, HashOf(token)))
  {
    FindByHashExact(s.tickets, HashOf(token));
    var found := FindByHash(s.tickets, HashOf(token));
    if found.Some? {
      var t := found.value;
      FindRowExact(s.rows, t);
      assert RowsOf(s.rows, t) == if s.tickets[t].status == S.CheckedIn then 1 else 0;
      var r := SyncItem(s, eventId, device, token);
      if s.tickets[t].status == S.Valid && s.tickets[t].eventId == eventId {
        CheckInKeeps(s, t, Some(device));
        assert r.server.tickets[t].tokenHash == HashOf(token);
        assert LetIn(s, t, Some(device), r.server);
      }
      if s.tickets[t].status == S.CheckedIn {
        assert RowOf(s.rows, t, FindRow(s.rows, t).value);
      }
      assert OutcomeFits(s, t, eventId, device, r.outcome);
      forall u | 0 <= u < |s.tickets| && s.tickets[u].tokenHash == HashOf(token) ensures u == t {
      }
    }
  }

  /** Status moves that neither enter nor leave CHECKED_IN keep the equivalence. */
  lemma StatusKeeps(s: Server, t: nat, to: S.TicketStatus)
    requires ServerInv(s) && t < |s.tickets|
    requires s.tickets[t].status != S.CheckedIn && to !in {S.CheckedIn, S.PendingIssue}
    ensures ServerInv(SetStatus(s, t, to))
  {
    var s' := SetStatus(s, t, to);
    forall u: nat
      ensures RowsOf(s'.rows, u) == if u < |s'.tickets| && s'.tickets[u].status == S.CheckedIn then 1 else 0
    {
      assert RowsOf(s.rows, u) == if u < |s.tickets| && s.tickets[u].status == S.CheckedIn then 1 else 0;
    }
  }

  predicate FreshHash(tickets: seq<Ticket>, h: Hash) {
    forall t :: 0 <= t < |tickets| ==> tickets[t].tokenHash != h
  }

  lemma IssueKeeps(s: Server, eventId: nat, h: Hash)
    requires ServerInv(s) && FreshHash(s.tickets, h)
    ensures ServerInv(s.(tickets := s.tickets + [Ticket(eventId, h, S.Valid)]))
  {
    var s' := s.(tickets := s.tickets + [Ticket(eventId, h, S.Valid)]);
    forall u: nat
      ensures RowsOf(s'.rows, u) == if u < |s'.tickets| && s'.tickets[u].status == S.CheckedIn then 1 else 0
    {
      assert RowsOf(s.rows, u) == if u < |s.tickets| && s.tickets[u].status == S.CheckedIn then 1 else 0;
    }
  }

  lemma RotateKeeps(s: Server, t: nat, h: Hash)
    requires ServerInv(s) && t < |s.tickets| && FreshHash(s.tickets, h)
    ensures ServerInv(s.(tickets := s.tickets[t := s.tickets[t].(tokenHash := h)]))
  {
    var s' := s.(tickets := s.tickets[t := s.tickets[t].(tokenHash := h)]);
    forall u: nat
      ensures RowsOf(s'.rows, u) == if u < |s'.tickets| && s'.tickets[u].status == S.CheckedIn then 1 else 0
    {
      assert RowsOf(s.rows, u) == if u < |s.tickets| && s.tickets[u].status == S.CheckedIn then 1 else 0;
    }
  }

  // ----- Dashboard -----------------------------------------------------------------------------------

  ghost function PresentIds(rows: seq<Row>, e: nat): set<nat> {
    if rows == [] then {}
    else
      var n := |rows| - 1;
      PresentIds(rows[..n], e) + if rows[n].eventId == e then {rows[n].ticketId} else {}
  }

  lemma {:induction false} PresentIdsMembers(rows: seq<Row>, e: nat)
    ensures forall t :: t in PresentIds(rows, e) <==> exists r :: RowOf(rows, t, r) && r.eventId == e
  {
    if rows != [] {
      var n := |rows| - 1;
      PresentIdsMembers(rows[..n], e);
      assert rows == rows[..n] + [rows[n]];
      forall t ensures t in PresentIds(rows, e) <==> exists r :: RowOf(rows, t, r) && r.eventId == e {
        if t in PresentIds(rows[..n], e) {
          var r :| RowOf(rows[..n], t, r) && r.eventId == e;
          assert RowOf(rows, t, r);
        } else if t in PresentIds(rows, e) {
          assert RowOf(rows, t, rows[n]);
        }
        if r :| RowOf(rows, t, r) && r.eventId == e {
          assert r != rows[n] ==> RowOf(rows[..n], t, r);
        }
      }
    }
  }

  lemma PresentHasRow(rows: seq<Row>, e: nat, t: nat)
    ensures t in PresentIds(rows, e) ==> RowsOf(rows, t) > 0
  {
    PresentIdsMembers(rows, e);
    if t in PresentIds(rows, e) {
      var r :| RowOf(rows, t, r) && r.eventId == e;
      var k :| 0 <= k < |rows| && rows[k] == r;
      SumAtLeast(rows, k, RowFor(t));
    }
  }

  lemma {:induction false} PresentIdsCount(rows: seq<Row>, e: nat)
    requires forall t: nat :: RowsOf(rows, t) <= 1
    ensures |PresentIds(rows, e)| == Sum(rows, PresentIn(e))
  {
    if rows != [] {
      var n := |rows| - 1;
      forall t: nat ensures RowsOf(rows[..n], t) <= 1 {
        assert RowsOf(rows, t) <= 1;
      }
      PresentIdsCount(rows[..n], e);
      assert RowsOf(rows, rows[n].ticketId) <= 1;
      PresentHasRow(rows[..n], e, rows[n].ticketId);
    }
  }

  ghost function SoldIds(tickets: seq<Ticket>, e: nat): set<nat> {
    set t: nat | t < |tickets| && tickets[t].eventId == e && tickets[t].status in {S.Valid, S.CheckedIn}
  }

  lemma {:induction false} SoldIdsCount(tickets: seq<Ticket>, e: nat)
    ensures |SoldIds(tickets, e)| == Sum(tickets, SoldIn(e))
  {
    if tickets != [] {
      var n := |tickets| - 1;
      SoldIdsCount(tickets[..n], e);
      var last: set<nat> := if tickets[n].eventId == e && tickets[n].status in {S.Valid, S.CheckedIn} then {n} else {};
      assert SoldIds(tickets, e) == SoldIds(tickets[..n], e) + last;
    }
  }

  ghost function InsideIds(tickets: seq<Ticket>, e: nat): set<nat> {
    set t: nat | t < |tickets| && tickets[t].eventId == e && tickets[t].status == S.CheckedIn
  }

  lemma PresentAreInside(s: Server, e: nat)
    requires ServerInv(s)
    ensures PresentIds(s.rows, e) == InsideIds(s.tickets, e)
  {
    PresentIdsMembers(s.rows, e);
    forall t: nat ensures t in PresentIds(s.rows, e) <==> t in InsideIds(s.tickets, e) {
      FindRowExact(s.rows, t);
      assert RowsOf(s.rows, t) == if t < |s.tickets| && s.tickets[t].status == S.CheckedIn then 1 else 0;
      PresentHasRow(s.rows, e, t);
      if t in InsideIds(s.tickets, e) {
        assert RowOf(s.rows, t, FindRow(s.rows, t).value);
      }
    }
  }

  /** `rate` is the share of `part` in `whole` in per cent, rounded to the nearest with halves up. */
  predicate PercentOf(rate: int, part: int, whole: int) {
    if whole > 0 then 2 * (whole * rate) - whole <= 200 * part < 2 * (whole * rate) + whole else rate == 0
  }

  /**
   * The dashboard is meaningful in every reachable state: sold counts the VALID and CHECKED_IN tickets
   * of the event, present the CHECKED_IN ones, absent the rest, and the entry rate is the rounded
   * percentage, between 0 and 100 and 100 when all are in.
   */
  lemma DashboardConsistent(s: Server, e: nat)
    requires ServerInv(s)
    ensures var d := ReadDashboard(s, e);
      && d.sold == |SoldIds(s.tickets, e)| && d.present == |InsideIds(s.tickets, e)|
      && d.present <= d.sold
      && d.present + d.absent == d.sold
      && PercentOf(d.entryRatePercent, d.present, d.sold)
      && 0 <= d.entryRatePercent <= 100
      && (d.sold > 0 && d.absent == 0 ==> d.entryRatePercent == 100)
  {
    var d := ReadDashboard(s, e);
    forall t: nat ensures RowsOf(s.rows, t) <= 1 {
      assert RowsOf(s.rows, t) == if t < |s.tickets| && s.tickets[t].status == S.CheckedIn then 1 else 0;
    }
    PresentIdsCount(s.rows, e);
    SoldIdsCount(s.tickets, e);
    PresentAreInside(s, e);
    SubsetSize(InsideIds(s.tickets, e), SoldIds(s.tickets, e));
    if d.sold > 0 {
      RateWithin(d.present, d.sold);
      RoundDivNearest(d.present * 100, d.sold, d.entryRatePercent);
    }
  }

  lemma RateWithin(present: nat, sold: nat)
    requires present <= sold && sold > 0
    ensures 0 <= RoundDiv(present * 100, sold) <= 100
    ensures present == sold ==> RoundDiv(present * 100, sold) == 100
  {
    var q := RoundDiv(present * 100, sold);
    RoundDivNearest(present * 100, sold, q);
    if q >= 101 {
      MulLe(sold, 101, q);
    } else if q <= -1 {
      MulLe(sold, q, -1);
    }
    RoundDivNearest(present * 100, sold, 100);
  }
}
