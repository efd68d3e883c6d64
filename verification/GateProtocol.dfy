/**
 * The gate protocol: online operators and offline devices in any interleaving. Online calls
 * and undos are single steps; an offline batch is processed item by item with others acting
 * in between; responses may be lost, and delivered late or more than once; batches are resent.
 */
module GateProtocol {
  import opened Base
  import opened GateModel
  import opened GateInvariant
  import S = SalesModel

  datatype Entry =
    | AcceptedOnline(ticketId: nat)
    | AppliedSync(ticketId: nat)
    | Undone(ticketId: nat)
    | ServerRejected(token: nat)

  /** A sync request being processed on the server. */
  datatype Request = Request(device: nat, id: nat, eventId: nat, sent: seq<Queued>, results: seq<SyncResult>)

  /** A response on its way to the device; it may never arrive. */
  datatype Reply = Reply(device: nat, sent: seq<Queued>, results: seq<SyncResult>)

  /** `log` is the history of what the server did. */
  datatype World = World(
    server: Server,
    log: seq<Entry>,
    devices: seq<Device>,
    requests: map<nat, Request>,
    replies: seq<Reply>)

  const Init := World(Server([], []), [], [], map[], [])

  datatype Action =
    | Issue(e: nat, newToken: nat)
    | Rotate(t: nat, newToken: nat)
    | Block(t: nat)
    | Unblock(t: nat)
    | Refund(t: nat)
    | AdmitOnline(e: nat, token: nat, device: Option<nat>)
    | AdmitManually(e: nat, t: nat, device: Option<nat>)
    | UndoCheckIn(e: nat, t: nat)
    | NewDevice(id: nat, e: nat)
    | SavePack(d: nat, pack: set<Hash>)
    | ScanOffline(d: nat, token: nat)
    | SendQueue(pid: nat, d: nat)
    | ProcessNext(pid: nat)
    | DropRequest(pid: nat)
    | DeliverReply(k: nat)

  function Log(w: World, entry: Entry): seq<Entry> {
    w.log + [entry]
  }

  function Online(w: World, r: Admitted): World {
    match r.validation
    case Accepted(t) => w.(server := r.server, log := Log(w, AcceptedOnline(t)))
    case Refused(_, _) => w.(server := r.server)
  }

  function SyncEntry(s: Server, item: Queued, outcome: Outcome): seq<Entry> {
    match outcome
    case Applied =>
      (match FindByHash(s.tickets, HashOf(item.token)) case Some(t) => [AppliedSync(t)] case None => [])
    case RejectedItem(_) => [ServerRejected(item.token)]
    case _ => []
  }

  /** The next item of a request, or, when none is left, the response. */
  function ProcessOne(w: World, pid: nat): World
    requires pid in w.requests
  {
    var q := w.requests[pid];
    if |q.results| >= |q.sent| then
      w.(requests := w.requests - {pid}, replies := w.replies + [Reply(q.device, q.sent, q.results)])
    else
      var item := q.sent[|q.results|];
      var r := SyncItem(w.server, q.eventId, q.id, item.token);
      w.(server := r.server,
         log := w.log + SyncEntry(w.server, item, r.outcome),
         requests := w.requests[pid := q.(results := q.results + [SyncResult(item.token, r.outcome)])])
  }

  /** An action that is not enabled changes nothing. */
  function Next(w: World, a: Action): World {
    match a
    case Issue(e, token) =>
      if FreshHash(w.server.tickets, HashOf(token)) then
        w.(server := w.server.(tickets := w.server.tickets + [Ticket(e, HashOf(token), S.Valid)]))
      else w
    case Rotate(t, token) =>
      if t < |w.server.tickets| && w.server.tickets[t].status == S.Valid && FreshHash(w.server.tickets, HashOf(token)) then
        w.(server := w.server.(tickets := w.server.tickets[t := w.server.tickets[t].(tokenHash := HashOf(token))]))
      else w
    case Block(t) =>
      if t < |w.server.tickets| && w.server.tickets[t].status == S.Valid then
        w.(server := SetStatus(w.server, t, S.Blocked)) else w
    case Unblock(t) =>
      if t < |w.server.tickets| && w.server.tickets[t].status == S.Blocked then
        w.(server := SetStatus(w.server, t, S.Valid)) else w
    case Refund(t) =>
      if t < |w.server.tickets| && w.server.tickets[t].status in {S.Valid, S.Blocked} then
        w.(server := SetStatus(w.server, t, S.TicketRefunded)) else w
    case AdmitOnline(e, token, device) => Online(w, Validate(w.server, e, token, device))
    case AdmitManually(e, t, device) =>
      if t < |w.server.tickets| && w.server.tickets[t].eventId == e then Online(w, Admit(w.server, t, device)) else w
    case UndoCheckIn(e, t) =>
      (match Undo(w.server, e, t)
       case Some(server) => w.(server := server, log := Log(w, Undone(t)))
       case None => w)
    case NewDevice(id, e) => w.(devices := w.devices + [Device(id, e, {}, {}, [])])
    case SavePack(d, pack) =>
      if d < |w.devices| then w.(devices := w.devices[d := w.devices[d].(pack := pack)]) else w
    case ScanOffline(d, token) =>
      if d < |w.devices| then w.(devices := w.devices[d := ValidateLocally(w.devices[d], token).device]) else w
    case SendQueue(pid, d) =>
      if d < |w.devices| && pid !in w.requests && w.devices[d].queue != [] then
        var dev := w.devices[d];
        w.(requests := w.requests[pid := Request(d, dev.id, dev.eventId, dev.queue, [])])
      else w
    case ProcessNext(pid) => if pid in w.requests then ProcessOne(w, pid) else w
    case DropRequest(pid) => w.(requests := w.requests - {pid})
    case DeliverReply(k) =>
      if k < |w.replies| && w.replies[k].device < |w.devices| then
        var r := w.replies[k];
        w.(devices := w.devices[r.device := SettleSync(w.devices[r.device], r.sent, r.results)])
      else w
  }

  function Exec(actions: seq<Action>): World {
    if actions == [] then Init else Next(Exec(actions[..|actions| - 1]), actions[|actions| - 1])
  }

  predicate NoUndo(actions: seq<Action>) {
    forall k :: 0 <= k < |actions| ==> !actions[k].UndoCheckIn?
  }
}
