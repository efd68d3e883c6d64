/** Protocol runs that nothing interrupts do what the services do, and a finished sync settles its queue. */
module GateRefinement {
  import opened Base
  import opened GateModel
  import opened GateInvariant
  import opened GateProtocol
  import opened GateGuarantees
  import opened GateStore
  import S = SalesModel

  // ----- One request, item by item -----------------------------------------------------------

  function Tokens(sent: seq<Queued>): seq<nat> {
    seq(|sent|, (k: int) requires 0 <= k < |sent| => sent[k].token)
  }

  /** `n` steps of request `pid` in a row. */
  function Processed(w: World, pid: nat, n: nat): World {
    if n == 0 then w else Next(Processed(w, pid, n - 1), ProcessNext(pid))
  }

  /** `w'` is `w` with the first `k` items of request `pid` synced, in order, by the batch loop. */
  predicate ProcessedTo(w: World, pid: nat, k: nat, w': World)
    requires pid in w.requests && k <= |w.requests[pid].sent|
  {
    var q := w.requests[pid];
    var batch := SyncBatch(w.server, q.eventId, q.id, Tokens(q.sent[..k]));
    && w'.server == batch.server
    && w'.requests == w.requests[pid := q.(results := batch.results)]
    && w'.devices == w.devices && w'.replies == w.replies
  }

  lemma ProcessedOneMore(w: World, pid: nat, k: nat, w': World)
    requires pid in w.requests && k < |w.requests[pid].sent| && ProcessedTo(w, pid, k, w')
    ensures ProcessedTo(w, pid, k + 1, Next(w', ProcessNext(pid)))
  {
    var q := w.requests[pid];
    var tokens := Tokens(q.sent[..k + 1]);
    assert tokens[..k] == Tokens(q.sent[..k]);
    SyncBatchAnswers(w.server, q.eventId, q.id, Tokens(q.sent[..k]));
  }

  lemma NothingProcessed(w: World, pid: nat)
    requires pid in w.requests && w.requests[pid].results == []
    ensures ProcessedTo(w, pid, 0, w)
  {
    assert w.requests[pid].(results := []) == w.requests[pid];
    assert Tokens(w.requests[pid].sent[..0]) == [];
  }

  /** Processed without interruption, a request does to the server what the service's batch loop does. */
  lemma {:induction false} ProcessIsBatch(w: World, pid: nat, k: nat)
    requires pid in w.requests && k <= |w.requests[pid].sent| && w.requests[pid].results == []
    ensures ProcessedTo(w, pid, k, Processed(w, pid, k))
  {
    if k == 0 {
      NothingProcessed(w, pid);
    } else {
      ProcessIsBatch(w, pid, k - 1);
      ProcessedOneMore(w, pid, k - 1, Processed(w, pid, k - 1));
    }
  }

  lemma AnsweredRequest(w: World, pid: nat)
    requires pid in w.requests && w.requests[pid].results == []
    ensures var q := w.requests[pid]; var batch := SyncBatch(w.server, q.eventId, q.id, Tokens(q.sent));
      var w' := Processed(w, pid, |q.sent| + 1);
      && w'.server == batch.server && w'.devices == w.devices
      && w'.requests == w.requests - {pid}
      && w'.replies == w.replies + [Reply(q.device, q.sent, batch.results)]
  {
    var q := w.requests[pid];
    ProcessIsBatch(w, pid, |q.sent|);
    assert q.sent[..|q.sent|] == q.sent;
    SyncBatchAnswers(w.server, q.eventId, q.id, Tokens(q.sent));
  }

  // ----- A whole sync round ---------------------------------------------------------------------

  /** The device sends its queue, every item is processed, the answer is given and delivered. */
  function SyncRound(w: World, pid: nat, d: nat): World
    requires d < |w.devices|
  {
    Next(Processed(Next(w, SendQueue(pid, d)), pid, |w.devices[d].queue| + 1), DeliverReply(|w.replies|))
  }

  lemma NewReplySettles(w: World, r: Reply)
    requires r.device < |w.devices| && w.replies != [] && w.replies[|w.replies| - 1] == r
    ensures Next(w, DeliverReply(|w.replies| - 1))
         == w.(devices := w.devices[r.device := SettleSync(w.devices[r.device], r.sent, r.results)])
  {
  }

  lemma SentQueue(w: World, pid: nat, d: nat)
    requires d < |w.devices| && pid !in w.requests && w.devices[d].queue != []
    ensures var dev := w.devices[d];
      Next(w, SendQueue(pid, d)) == w.(requests := w.requests[pid := Request(d, dev.id, dev.eventId, dev.queue, [])])
  {
  }

  lemma RoundRuns(w: World, pid: nat, d: nat)
    requires d < |w.devices| && pid !in w.requests && w.devices[d].queue != []
    ensures var dev := w.devices[d]; var batch := SyncBatch(w.server, dev.eventId, dev.id, Tokens(dev.queue));
      var w' := SyncRound(w, pid, d);
      && w'.server == batch.server && w'.requests == w.requests
      && w'.devices == w.devices[d := SettleSync(dev, dev.queue, batch.results)]
  {
    var dev := w.devices[d];
    SentQueue(w, pid, d);
    var sent := Next(w, SendQueue(pid, d));
    AnsweredRequest(sent, pid);
    assert sent.requests - {pid} == w.requests;
    NewReplySettles(Processed(sent, pid, |dev.queue| + 1),
                    Reply(d, dev.queue, SyncBatch(w.server, dev.eventId, dev.id, Tokens(dev.queue)).results));
  }

  lemma TokenAnswered(s: Server, eventId: nat, device: nat, sent: seq<Queued>, k: nat)
    requires k < |sent|
    ensures Answered(SyncBatch(s, eventId, device, Tokens(sent)).results, sent[k].token)
  {
    SyncBatchAnswers(s, eventId, device, Tokens(sent));
    assert SyncBatch(s, eventId, device, Tokens(sent)).results[k].token == sent[k].token;
  }

  /** Every entry that was sent is answered, so none stays queued. */
  lemma AnsweredQueueEmpties(s: Server, dev: Device)
    requires DeviceOk(dev)
    ensures var results := SyncBatch(s, dev.eventId, dev.id, Tokens(dev.queue)).results;
      SettleSync(dev, dev.queue, results).queue == [] && SettleFits(dev, dev.queue, results, SettleSync(dev, dev.queue, results))
  {
    var results := SyncBatch(s, dev.eventId, dev.id, Tokens(dev.queue)).results;
    var after := SettleSync(dev, dev.queue, results);
    SettleKeeps(dev, dev.queue, results);
    if after.queue != [] {
      assert after.queue[0] in after.queue;
      var k :| 0 <= k < |dev.queue| && dev.queue[k] == after.queue[0];
      TokenAnswered(s, dev.eventId, dev.id, dev.queue, k);
    }
  }

  /** What a sync round comes to: the batch on the server, and device `d` with its queue settled and empty. */
  ghost predicate RoundFits(w: World, d: nat, w': World)
    requires d < |w.devices|
  {
    var dev := w.devices[d];
    var batch := SyncBatch(w.server, dev.eventId, dev.id, Tokens(dev.queue));
    && w'.server == batch.server
    && NoneValid(w'.server.tickets, dev.eventId, Tokens(dev.queue))
    && |w'.devices| == |w.devices| && w'.devices[d].queue == []
    && SettleFits(dev, dev.queue, batch.results, w'.devices[d])
    && (forall c :: 0 <= c < |w.devices| && c != d ==> w'.devices[c] == w.devices[c])
  }

  lemma RoundSettles(w: World, pid: nat, d: nat)
    requires ServerInv(w.server) && d < |w.devices| && DeviceOk(w.devices[d])
    requires pid !in w.requests && w.devices[d].queue != []
    ensures RoundFits(w, d, SyncRound(w, pid, d))
  {
    var dev := w.devices[d];
    RoundRuns(w, pid, d);
    SyncBatchSettles(w.server, dev.eventId, dev.id, Tokens(dev.queue));
    AnsweredQueueEmpties(w.server, dev);
  }

  /**
   * From any reachable world, a sync round that nothing interrupts does to the server exactly what the
   * service's batch does with the device's queue, empties that queue, and leaves no ticket it named VALID.
   */
  lemma UninterruptedSyncSettlesQueue(actions: seq<Action>, pid: nat, d: nat)
    requires var w := Exec(actions); d < |w.devices| && pid !in w.requests && w.devices[d].queue != []
    ensures RoundFits(Exec(actions), d, SyncRound(Exec(actions), pid, d))
  {
    EveryRunKeeps(actions);
    assert DeviceOk(Exec(actions).devices[d]);
    RoundSettles(Exec(actions), pid, d);
  }

  // ----- The other actions of the gate --------------------------------------------------------------

  /** Ticket `t` is moved exactly when it stands in one of `from`; nothing else of the world changes. */
  predicate TicketMoved(w: World, w': World, t: nat, from: set<S.TicketStatus>, to: S.TicketStatus) {
    w' == if t < |w.server.tickets| && w.server.tickets[t].status in from
          then w.(server := Server(w.server.tickets[t := Ticket(w.server.tickets[t].eventId, w.server.tickets[t].tokenHash, to)],
                                   w.server.rows))
          else w
  }

  /** Some ticket carries the token. */
  predicate Carried(tickets: seq<Ticket>, token: nat) {
    exists t :: 0 <= t < |tickets| && tickets[t].tokenHash == HashOf(token)
  }

  /** What a staff edit of the tickets does: a fresh VALID ticket, a fresh token, or a guarded status move. */
  predicate EditFits(w: World, a: Action, w': World)
    requires a.Issue? || a.Rotate? || a.Block? || a.Unblock? || a.Refund?
  {
    match a
    case Issue(e, token) =>
      w' == if Carried(w.server.tickets, token) then w
            else w.(server := Server(w.server.tickets + [Ticket(e, HashOf(token), S.Valid)], w.server.rows))
    case Rotate(t, token) =>
      w' == if t < |w.server.tickets| && w.server.tickets[t].status == S.Valid && !Carried(w.server.tickets, token)
            then w.(server := Server(w.server.tickets[t := Ticket(w.server.tickets[t].eventId, HashOf(token), S.Valid)],
                                     w.server.rows))
            else w
    case Block(t) => TicketMoved(w, w', t, {S.Valid}, S.Blocked)
    case Unblock(t) => TicketMoved(w, w', t, {S.Blocked}, S.Valid)
    case Refund(t) => TicketMoved(w, w', t, {S.Valid, S.Blocked}, S.TicketRefunded)
  }

  lemma TicketEditsExact(w: World, a: Action)
    requires a.Issue? || a.Rotate? || a.Block? || a.Unblock? || a.Refund?
    ensures EditFits(w, a, Next(w, a))
  {
  }

  /**
   * What a device does by itself: it starts empty, stores the pack, and admits a packed token it has not used.
   * A request that is lost leaves everything else as it was.
   */
  predicate DeviceFits(w: World, a: Action, w': World)
    requires a.NewDevice? || a.SavePack? || a.ScanOffline? || a.DropRequest?
  {
    match a
    case DropRequest(pid) => w' == w.(requests := w.requests - {pid})
    case NewDevice(id, e) => w' == w.(devices := w.devices + [Device(id, e, {}, {}, [])])
    case SavePack(d, pack) =>
      w' == if d >= |w.devices| then w
            else w.(devices := w.devices[d := Device(w.devices[d].id, w.devices[d].eventId, pack, w.devices[d].used, w.devices[d].queue)])
    case ScanOffline(d, token) =>
      w' == if d >= |w.devices| || HashOf(token) !in w.devices[d].pack - w.devices[d].used then w
            else
              var dev := w.devices[d];
              w.(devices := w.devices[d := Device(dev.id, dev.eventId, dev.pack, dev.used + {HashOf(token)},
                                                  dev.queue + [Queued(token, HashOf(token))])])
  }

  lemma DeviceActionsExact(w: World, a: Action)
    requires a.NewDevice? || a.SavePack? || a.ScanOffline? || a.DropRequest?
    ensures DeviceFits(w, a, Next(w, a))
  {
    assert a.ScanOffline? && a.d < |w.devices| ==> w.devices[a.d := w.devices[a.d]] == w.devices;
  }

  /** The history gained the admission, if it was one; nothing off the server changed. */
  predicate Logged(w: World, w': World, v: Validation) {
    w' == w.(server := w'.server, log := w.log + if v.Accepted? then [AcceptedOnline(v.ticketId)] else [])
  }

  lemma ScanStepExact(w: World, e: nat, token: nat, device: Option<nat>) returns (v: Validation)
    requires ServerInv(w.server)
    ensures var w' := Online(w, Validate(w.server, e, token, device));
      ScanFits(w.server, e, token, device, v, w'.server) && Logged(w, w', v)
  {
    ValidateExact(w.server, e, token, device);
    v := Validate(w.server, e, token, device).validation;
  }

  lemma ManualStepExact(w: World, t: nat, device: Option<nat>) returns (v: Validation)
    requires ServerInv(w.server) && t < |w.server.tickets|
    ensures var w' := Online(w, Admit(w.server, t, device));
      && AnswerFits(w.server, t, w.server.tickets[t].eventId, v) && Logged(w, w', v)
      && (if v.Accepted? then LetIn(w.server, t, device, w'.server) else w'.server == w.server)
  {
    AdmitExact(w.server, t, device);
    v := Admit(w.server, t, device).validation;
  }

  lemma ExecPush(actions: seq<Action>, a: Action)
    ensures Exec(actions + [a]) == Next(Exec(actions), a)
  {
    assert (actions + [a])[..|actions|] == actions;
  }

  /** In every reachable world an online scan answers as its ticket's row tells, and logs what it admits. */
  lemma ScanActionExact(actions: seq<Action>, e: nat, token: nat, device: Option<nat>) returns (v: Validation)
    ensures var w, w' := Exec(actions), Exec(actions + [AdmitOnline(e, token, device)]);
      ScanFits(w.server, e, token, device, v, w'.server) && Logged(w, w', v)
  {
    EveryRunKeeps(actions);
    ExecPush(actions, AdmitOnline(e, token, device));
    v := ScanStepExact(Exec(actions), e, token, device);
  }

  /** So does a manual admission of one of the event's tickets; of any other ticket it does nothing. */
  lemma ManualActionExact(actions: seq<Action>, e: nat, t: nat, device: Option<nat>) returns (v: Validation)
    ensures var w, w' := Exec(actions), Exec(actions + [AdmitManually(e, t, device)]);
      if t < |w.server.tickets| && w.server.tickets[t].eventId == e then
        && AnswerFits(w.server, t, e, v) && Logged(w, w', v)
        && (if v.Accepted? then LetIn(w.server, t, device, w'.server) else w'.server == w.server)
      else w' == w
  {
    EveryRunKeeps(actions);
    ExecPush(actions, AdmitManually(e, t, device));
    v := Accepted(t);
    if t < |Exec(actions).server.tickets| {
      v := ManualStepExact(Exec(actions), t, device);
    }
  }

  /** An undo of a checked-in ticket of the event takes its row away and is logged; any other changes nothing. */
  lemma UndoActionExact(actions: seq<Action>, e: nat, t: nat) returns (undone: bool)
    ensures var w, w' := Exec(actions), Exec(actions + [UndoCheckIn(e, t)]);
      && UndoFits(w.server, e, t, undone, w'.server)
      && w' == w.(server := w'.server, log := w.log + if undone then [Undone(t)] else [])
  {
    EveryRunKeeps(actions);
    ExecPush(actions, UndoCheckIn(e, t));
    UndoExact(Exec(actions).server, e, t);
    undone := Undo(Exec(actions).server, e, t).Some?;
  }
}
