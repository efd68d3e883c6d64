/** The gate: tickets and check-in rows on the server, packs and queues on the devices. */
module GateModel {
  import opened Base
  import opened Money
  import S = SalesModel

  /** The stored hash of a raw token. Hashing is taken to be injective. */
  datatype Hash = HashOf(token: nat)

  datatype Ticket = Ticket(eventId: nat, tokenHash: Hash, status: S.TicketStatus)

  datatype Row = Row(ticketId: nat, eventId: nat, device: Option<nat>)

  datatype Server = Server(tickets: seq<Ticket>, rows: seq<Row>)

  datatype Reason = NotFound | WrongEvent | NotIssued | IsBlocked | IsCancelled | IsRefunded | AlreadyCheckedIn

  datatype Validation = Accepted(ticketId: nat) | Refused(reason: Reason, existing: Option<Row>)

  datatype Outcome = Applied | Duplicate | Conflict | RejectedItem(reason: Reason)

  datatype SyncResult = SyncResult(token: nat, outcome: Outcome)

  // ----- Server tables --------------------------------------------------------------------

  function RowFor(t: nat): Row -> int {
    (r: Row) => if r.ticketId == t then 1 else 0
  }

  /** How many check-in rows a ticket has. */
  function RowsOf(rows: seq<Row>, t: nat): int {
    Sum(rows, RowFor(t))
  }

  function FindRow(rows: seq<Row>, t: nat): Option<Row> {
    if rows == [] then None
    else if rows[0].ticketId == t then Some(rows[0])
    else FindRow(rows[1..], t)
  }

  /** INSERT under the unique key on the ticket. */
  function CreateRow(rows: seq<Row>, row: Row): seq<Row> {
    if FindRow(rows, row.ticketId).Some? then rows else rows + [row]
  }

  function DeleteRows(rows: seq<Row>, t: nat): seq<Row> {
    if rows == [] then []
    else
      var n := |rows| - 1;
      DeleteRows(rows[..n], t) + if rows[n].ticketId == t then [] else [rows[n]]
  }

  function FindByHash(tickets: seq<Ticket>, h: Hash): Option<nat> {
    if tickets == [] then None
    else
      var n := |tickets| - 1;
      if FindByHash(tickets[..n], h).Some? then FindByHash(tickets[..n], h)
      else if tickets[n].tokenHash == h then Some(n)
      else None
  }

  function SetStatus(s: Server, t: nat, to: S.TicketStatus): Server
    requires t < |s.tickets|
  {
    s.(tickets := s.tickets[t := s.tickets[t].(status := to)])
  }

  // ----- Online admission and undo ------------------------------------------------------------

  function StatusReason(status: S.TicketStatus): Reason {
    match status
    case PendingIssue => NotIssued
    case Blocked => IsBlocked
    case TicketCancelled => IsCancelled
    case TicketRefunded => IsRefunded
    case CheckedIn => AlreadyCheckedIn
    case Valid => NotFound
  }

  datatype Admitted = Admitted(server: Server, validation: Validation)

  function Admit(s: Server, t: nat, device: Option<nat>): Admitted
    requires t < |s.tickets|
  {
    var ticket := s.tickets[t];
    if ticket.status != S.Valid then
      var reason := StatusReason(ticket.status);
      Admitted(s, Refused(reason, if reason == AlreadyCheckedIn then FindRow(s.rows, t) else None))
    else
      var moved := SetStatus(s, t, S.CheckedIn);
      Admitted(moved.(rows := CreateRow(moved.rows, Row(t, ticket.eventId, device))), Accepted(t))
  }

  function Validate(s: Server, eventId: nat, token: nat, device: Option<nat>): Admitted {
    match FindByHash(s.tickets, HashOf(token))
    case None => Admitted(s, Refused(NotFound, None))
    case Some(t) =>
      if t >= |s.tickets| then Admitted(s, Refused(NotFound, None))
      else if s.tickets[t].eventId != eventId then Admitted(s, Refused(WrongEvent, None))
      else Admit(s, t, device)
  }

  /** None when the ticket is unknown to the event or not checked in. */
  function Undo(s: Server, eventId: nat, t: nat): Option<Server> {
    if t < |s.tickets| && s.tickets[t].eventId == eventId && s.tickets[t].status == S.CheckedIn then
      Some(SetStatus(s, t, S.Valid).(rows := DeleteRows(s.rows, t)))
    else None
  }

  // ----- Offline sync ---------------------------------------------------------------------------

  datatype Synced = Synced(server: Server, outcome: Outcome)

  function SyncItem(s: Server, eventId: nat, device: nat, token: nat): Synced {
    match FindByHash(s.tickets, HashOf(token))
    case None => Synced(s, RejectedItem(NotFound))
    case Some(t) =>
      if t >= |s.tickets| then Synced(s, RejectedItem(NotFound))
      else
        var ticket := s.tickets[t];
        if ticket.eventId != eventId then Synced(s, RejectedItem(WrongEvent))
        else if ticket.status in {S.TicketCancelled, S.TicketRefunded, S.Blocked} then
          Synced(s, RejectedItem(StatusReason(ticket.status)))
        else
          match FindRow(s.rows, t)
          case Some(row) => Synced(s, if row.device == Some(device) then Duplicate else Conflict)
          case None =>
            var inserted := s.(rows := s.rows + [Row(t, eventId, Some(device))]);
            Synced(if ticket.status == S.Valid then SetStatus(inserted, t, S.CheckedIn) else inserted, Applied)
  }

  // ----- Dashboard --------------------------------------------------------------------------------

  function SoldIn(e: nat): Ticket -> int {
    (t: Ticket) => if t.eventId == e && t.status in {S.Valid, S.CheckedIn} then 1 else 0
  }

  function PresentIn(e: nat): Row -> int {
    (r: Row) => if r.eventId == e then 1 else 0
  }

  datatype Dashboard = Dashboard(sold: int, present: int, absent: int, entryRatePercent: int)

  function ReadDashboard(s: Server, e: nat): Dashboard {
    var sold := Sum(s.tickets, SoldIn(e));
    var present := Sum(s.rows, PresentIn(e));
    Dashboard(sold, present, if sold - present > 0 then sold - present else 0,
              if sold > 0 then RoundDiv(present * 100, sold) else 0)
  }

  // ----- Devices --------------------------------------------------------------------------------------

  datatype Queued = Queued(token: nat, hash: Hash)

  /** One device's storage for one event; `pack` is whatever list it last downloaded. */
  datatype Device = Device(id: nat, eventId: nat, pack: set<Hash>, used: set<Hash>, queue: seq<Queued>)

  datatype LocalOutcome = LocalAccepted | LocalAlreadyUsed | LocalNotFound

  datatype Scanned = Scanned(device: Device, outcome: LocalOutcome)

  function ValidateLocally(d: Device, token: nat): Scanned {
    var h := HashOf(token);
    if h !in d.pack then Scanned(d, LocalNotFound)
    else if h in d.used then Scanned(d, LocalAlreadyUsed)
    else Scanned(d.(used := d.used + {h}, queue := d.queue + [Queued(token, h)]), LocalAccepted)
  }

  function RemoveTokens(queue: seq<Queued>, drop: set<nat>): seq<Queued> {
    if queue == [] then []
    else
      var n := |queue| - 1;
      RemoveTokens(queue[..n], drop) + if queue[n].token in drop then [] else [queue[n]]
  }

  function SettledTokens(results: seq<SyncResult>): set<nat> {
    set r | r in results :: r.token
  }

  /** Hashes the device must forget: queued when sent, and reported as admitted elsewhere. */
  function ConflictHashes(sent: seq<Queued>, results: seq<SyncResult>): set<Hash> {
    set q, r | q in sent && r in results && r.outcome == Conflict && r.token == q.token :: q.hash
  }

  /** Settling a server response against the device's queue and used set. */
  function SettleSync(d: Device, sent: seq<Queued>, results: seq<SyncResult>): Device {
    d.(used := d.used - ConflictHashes(sent, results),
       queue := RemoveTokens(d.queue, SettledTokens(results)))
  }
}
