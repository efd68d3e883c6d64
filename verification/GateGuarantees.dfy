/** The guarantees of the gate, for every run of any length with any interleaving. */
module GateGuarantees {
  import opened Base
  import opened GateModel
  import opened GateInvariant
  import opened GateProtocol
  import S = SalesModel

  /** +1 for each server admission of the ticket, -1 for each undo. */
  function Balance(t: nat): Entry -> int {
    (e: Entry) =>
      match e
      case AcceptedOnline(u) => if u == t then 1 else 0
      case AppliedSync(u) => if u == t then 1 else 0
      case Undone(u) => if u == t then -1 else 0
      case ServerRejected(_) => 0
  }

  function Admissions(t: nat): Entry -> int {
    (e: Entry) => if e == AcceptedOnline(t) || e == AppliedSync(t) then 1 else 0
  }

  /** The history balances: admitted minus undone is 1 for a checked-in ticket, else 0. */
  ghost predicate LogOk(w: World) {
    forall t: nat ::
      Sum(w.log, Balance(t)) == if t < |w.server.tickets| && w.server.tickets[t].status == S.CheckedIn then 1 else 0
  }

  /** Queued entries are distinct, carry their own hash, and are marked used. */
  ghost predicate DeviceOk(d: Device) {
    && (forall k :: 0 <= k < |d.queue| ==> d.queue[k].hash == HashOf(d.queue[k].token) && d.queue[k].hash in d.used)
    && (forall j, k :: 0 <= j < k < |d.queue| ==> d.queue[j].hash != d.queue[k].hash)
  }

  predicate SentOk(sent: seq<Queued>) {
    forall k :: 0 <= k < |sent| ==> sent[k].hash == HashOf(sent[k].token)
  }

  ghost predicate WorldInv(w: World) {
    && ServerInv(w.server)
    && LogOk(w)
    && (forall d :: 0 <= d < |w.devices| ==> DeviceOk(w.devices[d]))
    && (forall pid :: pid in w.requests ==> SentOk(w.requests[pid].sent))
    && (forall k :: 0 <= k < |w.replies| ==> SentOk(w.replies[k].sent))
  }

  // ----- Device operations -------------------------------------------------------------------

  lemma ScanKeeps(d: Device, token: nat)
    requires DeviceOk(d)
    ensures DeviceOk(ValidateLocally(d, token).device)
  {
  }

  lemma {:induction false} RemoveTokensExact(queue: seq<Queued>, drop: set<nat>)
    ensures forall q :: q in RemoveTokens(queue, drop) <==> q in queue && q.token !in drop
    ensures (forall j, k :: 0 <= j < k < |queue| ==> queue[j].hash != queue[k].hash) ==>
      forall j, k :: 0 <= j < k < |RemoveTokens(queue, drop)| ==>
        RemoveTokens(queue, drop)[j].hash != RemoveTokens(queue, drop)[k].hash
  {
    if queue != [] {
      var n := |queue| - 1;
      RemoveTokensExact(queue[..n], drop);
      assert queue == queue[..n] + [queue[n]];
      var rest := RemoveTokens(queue[..n], drop);
      if forall j, k :: 0 <= j < k < |queue| ==> queue[j].hash != queue[k].hash {
        forall j | 0 <= j < |rest| ensures rest[j].hash != queue[n].hash {
          assert rest[j] in queue[..n];
        }
      }
    }
  }

  /** The kept entries stay in their order. */
  lemma {:induction false} RemoveTokensConcat(a: seq<Queued>, b: seq<Queued>, drop: set<nat>)
    ensures RemoveTokens(a + b, drop) == RemoveTokens(a, drop) + RemoveTokens(b, drop)
  {
    if b == [] {
      assert a + b == a;
    } else {
      var n := |b| - 1;
      assert (a + b)[..|a| + n] == a + b[..n];
      RemoveTokensConcat(a, b[..n], drop);
    }
  }

  /** The response answers for the token. */
  predicate Answered(results: seq<SyncResult>, token: nat) {
    exists k :: 0 <= k < |results| && results[k].token == token
  }

  /** The response reports a conflict for an entry that was sent with this hash. */
  predicate Conflicted(sent: seq<Queued>, results: seq<SyncResult>, h: Hash) {
    exists q, r :: q in sent && r in results && r == SyncResult(q.token, Conflict) && q.hash == h
  }

  /** What settling a response does to a device, told from the response's answers. */
  ghost predicate SettleFits(d: Device, sent: seq<Queued>, results: seq<SyncResult>, d': Device) {
    && d'.id == d.id && d'.eventId == d.eventId && d'.pack == d.pack
    && (forall q :: q in d'.queue <==> q in d.queue && !Answered(results, q.token))
    && (forall h :: h in d'.used <==> h in d.used && !Conflicted(sent, results, h))
  }

  /**
   * Settling a response: exactly the answered tokens leave the queue and exactly the conflicted hashes
   * the used set, never one whose entry is still queued: the device never loses a pending admission.
   */
  lemma SettleKeeps(d: Device, sent: seq<Queued>, results: seq<SyncResult>)
    requires DeviceOk(d) && SentOk(sent)
    ensures DeviceOk(SettleSync(d, sent, results))
    ensures SettleFits(d, sent, results, SettleSync(d, sent, results))
  {
    var d' := SettleSync(d, sent, results);
    RemoveTokensExact(d.queue, SettledTokens(results));
    forall token: nat ensures token in SettledTokens(results) <==> Answered(results, token) {
      if token in SettledTokens(results) {
        var r :| r in results && r.token == token;
        var k :| 0 <= k < |results| && results[k] == r;
      }
    }
    forall h ensures h in ConflictHashes(sent, results) <==> Conflicted(sent, results, h) {
    }
    forall k | 0 <= k < |d'.queue| ensures d'.queue[k].hash == HashOf(d'.queue[k].token) && d'.queue[k].hash in d'.used {
      var q := d'.queue[k];
      assert q in d'.queue;
    }
  }

  // ----- Every step keeps the invariant ------------------------------------------------------------

  lemma LogPush(w: World, w': World, entry: Entry)
    requires LogOk(w) && w'.log == w.log + [entry]
    requires forall t: nat ::
      (if t < |w'.server.tickets| && w'.server.tickets[t].status == S.CheckedIn then 1 else 0)
      == (if t < |w.server.tickets| && w.server.tickets[t].status == S.CheckedIn then 1 else 0) + Balance(t)(entry)
    ensures LogOk(w')
  {
    forall t: nat
      ensures Sum(w'.log, Balance(t)) == if t < |w'.server.tickets| && w'.server.tickets[t].status == S.CheckedIn then 1 else 0
    {
      SumPush(w.log, entry, Balance(t));
      assert Sum(w.log, Balance(t)) == if t < |w.server.tickets| && w.server.tickets[t].status == S.CheckedIn then 1 else 0;
    }
  }

  lemma LogSame(w: World, w': World)
    requires LogOk(w) && w'.log == w.log && |w.server.tickets| <= |w'.server.tickets|
    requires forall t :: 0 <= t < |w'.server.tickets| ==>
      (w'.server.tickets[t].status == S.CheckedIn <==>
        t < |w.server.tickets| && w.server.tickets[t].status == S.CheckedIn)
    ensures LogOk(w')
  {
    forall t: nat
      ensures Sum(w'.log, Balance(t)) == if t < |w'.server.tickets| && w'.server.tickets[t].status == S.CheckedIn then 1 else 0
    {
      assert Sum(w.log, Balance(t)) == if t < |w.server.tickets| && w.server.tickets[t].status == S.CheckedIn then 1 else 0;
    }
  }

  lemma OnlineKeeps(w: World, t: nat, device: Option<nat>)
    requires WorldInv(w) && t < |w.server.tickets|
    ensures WorldInv(Online(w, Admit(w.server, t, device)))
  {
    AdmitExact(w.server, t, device);
    var r := Admit(w.server, t, device);
    if r.validation.Accepted? {
      LogPush(w, Online(w, r), AcceptedOnline(t));
    } else {
      LogSame(w, Online(w, r));
    }
  }

  /** What one synced item does to the server and its log. */
  lemma ItemKeeps(w: World, w': World, item: Queued, eventId: nat, device: nat)
    requires WorldInv(w)
    requires var r := SyncItem(w.server, eventId, device, item.token);
      w'.server == r.server && w'.log == w.log + SyncEntry(w.server, item, r.outcome)
    ensures ServerInv(w'.server) && LogOk(w')
  {
    SyncItemExact(w.server, eventId, device, item.token);
    var r := SyncItem(w.server, eventId, device, item.token);
    FindByHashExact(w.server.tickets, HashOf(item.token));
    if r.outcome == Applied {
      LogPush(w, w', AppliedSync(FindByHash(w.server.tickets, HashOf(item.token)).value));
    } else if r.outcome.RejectedItem? {
      LogPush(w, w', ServerRejected(item.token));
    } else {
      assert w'.log == w.log;
      LogSame(w, w');
    }
  }

  lemma ProcessKeeps(w: World, pid: nat)
    requires WorldInv(w) && pid in w.requests
    ensures WorldInv(ProcessOne(w, pid))
  {
    var q := w.requests[pid];
    if |q.results| >= |q.sent| {
      LogSame(w, ProcessOne(w, pid));
    } else {
      ItemKeeps(w, ProcessOne(w, pid), q.sent[|q.results|], q.eventId, q.id);
    }
  }

  /** The same tickets are inside; new ones are not. */
  predicate SameInside(before: Server, after: Server) {
    && |before.tickets| <= |after.tickets|
    && (forall t :: 0 <= t < |after.tickets| ==>
          (after.tickets[t].status == S.CheckedIn <==> t < |before.tickets| && before.tickets[t].status == S.CheckedIn))
  }

  lemma ServerEditKeeps(w: World, server: Server)
    requires WorldInv(w) && ServerInv(server) && SameInside(w.server, server)
    ensures WorldInv(w.(server := server))
  {
    LogSame(w, w.(server := server));
  }

  lemma IssueOrRotateKeeps(w: World, a: Action)
    requires WorldInv(w) && (a.Issue? || a.Rotate?)
    ensures WorldInv(Next(w, a))
  {
    var server := Next(w, a).server;
    if server != w.server {
      if a.Issue? {
        IssueKeeps(w.server, a.e, HashOf(a.newToken));
      } else {
        RotateKeeps(w.server, a.t, HashOf(a.newToken));
      }
    }
    ServerEditKeeps(w, server);
  }

  lemma StatusEditKeeps(w: World, t: nat, from: set<S.TicketStatus>, to: S.TicketStatus)
    requires WorldInv(w) && from <= {S.Valid, S.Blocked} && to in {S.Valid, S.Blocked, S.TicketRefunded}
    requires t < |w.server.tickets| && w.server.tickets[t].status in from
    ensures WorldInv(w.(server := SetStatus(w.server, t, to)))
  {
    StatusKeeps(w.server, t, to);
    ServerEditKeeps(w, SetStatus(w.server, t, to));
  }

  lemma TicketEditKeeps(w: World, a: Action)
    requires WorldInv(w) && (a.Block? || a.Unblock? || a.Refund?)
    ensures WorldInv(Next(w, a))
  {
    if a.t < |w.server.tickets| {
      var status := w.server.tickets[a.t].status;
      if a.Block? && status == S.Valid {
        StatusEditKeeps(w, a.t, {S.Valid}, S.Blocked);
      } else if a.Unblock? && status == S.Blocked {
        StatusEditKeeps(w, a.t, {S.Blocked}, S.Valid);
      } else if a.Refund? && status in {S.Valid, S.Blocked} {
        StatusEditKeeps(w, a.t, {S.Valid, S.Blocked}, S.TicketRefunded);
      }
    }
  }

  lemma DevicesEditKeeps(w: World, devices: seq<Device>)
    requires WorldInv(w) && forall d :: 0 <= d < |devices| ==> DeviceOk(devices[d])
    ensures WorldInv(w.(devices := devices))
  {
    LogSame(w, w.(devices := devices));
  }

  lemma ReplyKeeps(w: World, k: nat)
    requires WorldInv(w)
    ensures WorldInv(Next(w, DeliverReply(k)))
  {
    if k < |w.replies| && w.replies[k].device < |w.devices| {
      SettleKeeps(w.devices[w.replies[k].device], w.replies[k].sent, w.replies[k].results);
    }
    DevicesEditKeeps(w, Next(w, DeliverReply(k)).devices);
  }

  lemma DeviceStepKeeps(w: World, a: Action)
    requires WorldInv(w) && (a.NewDevice? || a.SavePack? || a.ScanOffline?)
    ensures WorldInv(Next(w, a))
  {
    if a.ScanOffline? && a.d < |w.devices| {
      ScanKeeps(w.devices[a.d], a.token);
    }
    DevicesEditKeeps(w, Next(w, a).devices);
  }

  lemma TransportKeeps(w: World, a: Action)
    requires WorldInv(w) && (a.SendQueue? || a.DropRequest?)
    ensures WorldInv(Next(w, a))
  {
    assert a.SendQueue? && a.d < |w.devices| ==> DeviceOk(w.devices[a.d]);
    LogSame(w, Next(w, a));
  }

  lemma AdmitOnlineKeeps(w: World, e: nat, token: nat, device: Option<nat>)
    requires WorldInv(w)
    ensures WorldInv(Online(w, Validate(w.server, e, token, device)))
  {
    ValidateExact(w.server, e, token, device);
    var r := Validate(w.server, e, token, device);
    if r.validation.Accepted? {
      OnlineKeeps(w, r.validation.ticketId, device);
    } else {
      LogSame(w, Online(w, r));
    }
  }

  lemma UndoStepKeeps(w: World, e: nat, t: nat)
    requires WorldInv(w)
    ensures WorldInv(Next(w, UndoCheckIn(e, t)))
  {
    if Undo(w.server, e, t).Some? {
      UndoKeeps(w.server, e, t);
      LogPush(w, Next(w, UndoCheckIn(e, t)), Undone(t));
    }
  }

  lemma NextKeeps(w: World, a: Action)
    requires WorldInv(w)
    ensures WorldInv(Next(w, a))
  {
    match a {
      case AdmitOnline(e, token, device) => AdmitOnlineKeeps(w, e, token, device);
      case AdmitManually(e, t, device) => if t < |w.server.tickets| { OnlineKeeps(w, t, device); }
      case UndoCheckIn(e, t) => UndoStepKeeps(w, e, t);
      case ProcessNext(pid) => if pid in w.requests { ProcessKeeps(w, pid); }
      case Issue(_, _) => IssueOrRotateKeeps(w, a);
      case Rotate(_, _) => IssueOrRotateKeeps(w, a);
      case Block(_) => TicketEditKeeps(w, a);
      case Unblock(_) => TicketEditKeeps(w, a);
      case Refund(_) => TicketEditKeeps(w, a);
      case SendQueue(_, _) => TransportKeeps(w, a);
      case DropRequest(_) => TransportKeeps(w, a);
      case DeliverReply(k) => ReplyKeeps(w, k);
      case _ => DeviceStepKeeps(w, a);
    }
  }

  lemma {:induction false} EveryRunKeeps(actions: seq<Action>)
    ensures WorldInv(Exec(actions))
  {
    if actions != [] {
      EveryRunKeeps(actions[..|actions| - 1]);
      NextKeeps(Exec(actions[..|actions| - 1]), actions[|actions| - 1]);
    }
  }

  // ----- Guarantees with undo ----------------------------------------------------------------------

  /**
   * In every run a ticket is CHECKED_IN exactly when it has exactly one check-in row, and
   * admissions minus undos of any ticket is 0 or 1, being 1 exactly for a checked-in ticket.
   */
  lemma CheckInEquivalence(actions: seq<Action>, t: nat)
    ensures var w := Exec(actions);
      var inside := t < |w.server.tickets| && w.server.tickets[t].status == S.CheckedIn;
      && RowsOf(w.server.rows, t) == (if inside then 1 else 0)
      && Sum(w.log, Balance(t)) == (if inside then 1 else 0)
  {
    EveryRunKeeps(actions);
  }

  /** In every run the dashboard counts the tickets sold and inside, and its percentage is theirs. */
  lemma DashboardAlwaysConsistent(actions: seq<Action>, e: nat)
    ensures var s := Exec(actions).server; var d := ReadDashboard(s, e);
      && d.sold == |SoldIds(s.tickets, e)| && d.present == |InsideIds(s.tickets, e)| <= d.sold
      && d.present + d.absent == d.sold
      && PercentOf(d.entryRatePercent, d.present, d.sold) && 0 <= d.entryRatePercent <= 100
  {
    EveryRunKeeps(actions);
    DashboardConsistent(Exec(actions).server, e);
  }

  /** On each device, in every run, queued hashes stay distinct and inside the used set. */
  lemma DeviceQueuesSound(actions: seq<Action>, d: nat)
    requires d < |Exec(actions).devices|
    ensures var dev := Exec(actions).devices[d];
      && (forall k :: 0 <= k < |dev.queue| ==> dev.queue[k].hash in dev.used)
      && (forall j, k :: 0 <= j < k < |dev.queue| ==> dev.queue[j].hash != dev.queue[k].hash)
  {
    EveryRunKeeps(actions);
    assert DeviceOk(Exec(actions).devices[d]);
  }

  // ----- Guarantees without undo ---------------------------------------------------------------------

  predicate LogsNoUndo(log: seq<Entry>) {
    forall k :: 0 <= k < |log| ==> !log[k].Undone?
  }

  lemma NextLogsNoUndo(w: World, a: Action)
    requires LogsNoUndo(w.log) && !a.UndoCheckIn?
    ensures LogsNoUndo(Next(w, a).log)
  {
    if a.ProcessNext? && a.pid in w.requests {
      assert LogsNoUndo(ProcessOne(w, a.pid).log);
    }
  }

  lemma {:induction false} NoUndoNoUndone(actions: seq<Action>)
    requires NoUndo(actions)
    ensures LogsNoUndo(Exec(actions).log)
  {
    if actions != [] {
      NoUndoNoUndone(actions[..|actions| - 1]);
      NextLogsNoUndo(Exec(actions[..|actions| - 1]), actions[|actions| - 1]);
    }
  }

  /** Without undo each ticket gets at most one server admission, online or synced, ever. */
  lemma AtMostOneAdmission(actions: seq<Action>, t: nat)
    requires NoUndo(actions)
    ensures Sum(Exec(actions).log, Admissions(t)) <= 1
  {
    EveryRunKeeps(actions);
    NoUndoNoUndone(actions);
    SumEq(Exec(actions).log, Admissions(t), Balance(t));
  }

  /** The server rejected the token at some point, or its ticket holds a check-in row. */
  ghost predicate Settled(w: World, token: nat) {
    ServerRejected(token) in w.log || HasRow(w.server, HashOf(token))
  }

  ghost predicate ResultsSettled(w: World, results: seq<SyncResult>) {
    forall k :: 0 <= k < |results| ==> Settled(w, results[k].token)
  }

  ghost predicate AnswersSettled(w: World) {
    && (forall pid :: pid in w.requests ==> ResultsSettled(w, w.requests[pid].results))
    && (forall k :: 0 <= k < |w.replies| ==> ResultsSettled(w, w.replies[k].results))
  }

  /** Checked-in tickets keep their status and token, and the log only grows. */
  ghost predicate GateAdvances(w: World, w': World) {
    && (forall e :: e in w.log ==> e in w'.log)
    && |w.server.tickets| <= |w'.server.tickets|
    && (forall t :: 0 <= t < |w.server.tickets| && w.server.tickets[t].status == S.CheckedIn ==>
          w'.server.tickets[t] == w.server.tickets[t])
  }

  lemma SettledStable(w: World, w': World, token: nat)
    requires GateAdvances(w, w') && Settled(w, token)
    ensures Settled(w', token)
  {
    if ServerRejected(token) !in w.log {
      var t :| 0 <= t < |w.server.tickets| && w.server.tickets[t].tokenHash == HashOf(token)
        && w.server.tickets[t].status == S.CheckedIn;
      assert w'.server.tickets[t] == w.server.tickets[t];
    }
  }

  lemma ResultsStable(w: World, w': World, results: seq<SyncResult>)
    requires GateAdvances(w, w') && ResultsSettled(w, results)
    ensures ResultsSettled(w', results)
  {
    forall k | 0 <= k < |results| ensures Settled(w', results[k].token) {
      SettledStable(w, w', results[k].token);
    }
  }

  lemma AdmitAdvances(w: World, t: nat, device: Option<nat>)
    requires WorldInv(w) && t < |w.server.tickets|
    ensures GateAdvances(w, Online(w, Admit(w.server, t, device)))
  {
    AdmitExact(w.server, t, device);
  }

  lemma ProcessAdvances(w: World, pid: nat)
    requires WorldInv(w) && pid in w.requests
    ensures GateAdvances(w, ProcessOne(w, pid))
  {
    var q := w.requests[pid];
    if |q.results| < |q.sent| {
      SyncItemExact(w.server, q.eventId, q.id, q.sent[|q.results|].token);
    }
  }

  lemma AdmitOnlineAdvances(w: World, e: nat, token: nat, device: Option<nat>)
    requires WorldInv(w)
    ensures GateAdvances(w, Online(w, Validate(w.server, e, token, device)))
  {
    ValidateExact(w.server, e, token, device);
    var r := Validate(w.server, e, token, device);
    if r.validation.Accepted? {
      AdmitAdvances(w, r.validation.ticketId, device);
    }
  }

  /** Edits of tickets that are not checked in, and everything that happens off the server. */
  lemma EditAdvances(w: World, a: Action)
    requires !a.UndoCheckIn? && !a.AdmitOnline? && !a.AdmitManually? && !a.ProcessNext?
    ensures GateAdvances(w, Next(w, a))
  {
  }

  lemma NextAdvances(w: World, a: Action)
    requires WorldInv(w) && !a.UndoCheckIn?
    ensures GateAdvances(w, Next(w, a))
  {
    if a.AdmitOnline? {
      AdmitOnlineAdvances(w, a.e, a.token, a.device);
    } else if a.AdmitManually? {
      if a.t < |w.server.tickets| {
        AdmitAdvances(w, a.t, a.device);
      }
    } else if a.ProcessNext? {
      if a.pid in w.requests {
        ProcessAdvances(w, a.pid);
      }
    } else {
      EditAdvances(w, a);
    }
  }

  lemma ProcessAnswers(w: World, pid: nat)
    requires WorldInv(w) && AnswersSettled(w) && pid in w.requests && GateAdvances(w, ProcessOne(w, pid))
    ensures var w' := ProcessOne(w, pid);
      pid in w'.requests ==> ResultsSettled(w', w'.requests[pid].results)
  {
    var q := w.requests[pid];
    var w' := ProcessOne(w, pid);
    if |q.results| < |q.sent| {
      var item := q.sent[|q.results|];
      SyncItemExact(w.server, q.eventId, q.id, item.token);
      ResultsStable(w, w', q.results);
      var r := SyncItem(w.server, q.eventId, q.id, item.token);
      if r.outcome.RejectedItem? {
        assert w'.log[|w.log|] == ServerRejected(item.token);
      }
      assert Settled(w', item.token);
    }
  }

  /** A request or a response that was there before is still settled; the others are new. */
  lemma OldAnswers(w: World, w': World)
    requires AnswersSettled(w) && GateAdvances(w, w')
    ensures forall pid :: pid in w.requests ==> ResultsSettled(w', w.requests[pid].results)
    ensures forall k :: 0 <= k < |w.replies| ==> ResultsSettled(w', w.replies[k].results)
  {
    forall pid | pid in w.requests ensures ResultsSettled(w', w.requests[pid].results) {
      ResultsStable(w, w', w.requests[pid].results);
    }
    forall k | 0 <= k < |w.replies| ensures ResultsSettled(w', w.replies[k].results) {
      ResultsStable(w, w', w.replies[k].results);
    }
  }

  lemma ProcessStepAnswers(w: World, pid: nat)
    requires WorldInv(w) && AnswersSettled(w) && pid in w.requests
    ensures AnswersSettled(ProcessOne(w, pid))
  {
    ProcessAdvances(w, pid);
    OldAnswers(w, ProcessOne(w, pid));
    ProcessAnswers(w, pid);
  }

  lemma OtherStepAnswers(w: World, a: Action)
    requires AnswersSettled(w) && GateAdvances(w, Next(w, a)) && !a.ProcessNext?
    ensures AnswersSettled(Next(w, a))
  {
    OldAnswers(w, Next(w, a));
  }

  lemma NextAnswers(w: World, a: Action)
    requires WorldInv(w) && AnswersSettled(w) && !a.UndoCheckIn?
    ensures AnswersSettled(Next(w, a))
  {
    if a.ProcessNext? {
      if a.pid in w.requests {
        ProcessStepAnswers(w, a.pid);
      }
    } else {
      NextAdvances(w, a);
      OtherStepAnswers(w, a);
    }
  }

  lemma {:induction false} AnswersAlwaysSettled(actions: seq<Action>)
    requires NoUndo(actions)
    ensures AnswersSettled(Exec(actions))
  {
    if actions != [] {
      var before := actions[..|actions| - 1];
      AnswersAlwaysSettled(before);
      EveryRunKeeps(before);
      NextAnswers(Exec(before), actions[|actions| - 1]);
    }
  }

  lemma NoUndoPrefix(actions: seq<Action>, a: Action)
    requires NoUndo(actions + [a])
    ensures NoUndo(actions) && !a.UndoCheckIn?
  {
    assert forall k :: 0 <= k < |actions| ==> (actions + [a])[k] == actions[k];
    assert (actions + [a])[|actions|] == a;
  }

  /** One response: the entry stays queued, or the response's answer for it was settled before. */
  lemma ReplyLeavesOnlySettled(w: World, k: nat, entry: Queued)
    requires WorldInv(w) && AnswersSettled(w) && k < |w.replies| && w.replies[k].device < |w.devices|
    requires entry in w.devices[w.replies[k].device].queue
    ensures entry in SettleSync(w.devices[w.replies[k].device], w.replies[k].sent, w.replies[k].results).queue
      || Settled(w, entry.token)
  {
    var r := w.replies[k];
    SettleKeeps(w.devices[r.device], r.sent, r.results);
    if Answered(r.results, entry.token) {
      var j :| 0 <= j < |r.results| && r.results[j].token == entry.token;
      assert Settled(w, r.results[j].token);
    }
  }

  lemma OnlyRepliesShrinkQueues(w: World, a: Action, d: nat, entry: Queued)
    requires d < |w.devices| && entry in w.devices[d].queue
    requires !(a.DeliverReply? && a.k < |w.replies| && w.replies[a.k].device == d)
    ensures d < |Next(w, a).devices| && entry in Next(w, a).devices[d].queue
  {
  }

  /**
   * No offline admission is lost: in a run without undo, an entry leaves a device's queue
   * only once the server rejected its token or holds a check-in row for its ticket, however
   * many responses were lost, late or repeated.
   */
  lemma QueueEntriesOnlyLeaveSettled(actions: seq<Action>, a: Action, d: nat, entry: Queued)
    requires NoUndo(actions + [a]) && d < |Exec(actions).devices|
    requires entry in Exec(actions).devices[d].queue
    ensures var w' := Next(Exec(actions), a);
      d < |w'.devices| && (entry in w'.devices[d].queue || Settled(w', entry.token))
  {
    NoUndoPrefix(actions, a);
    EveryRunKeeps(actions);
    AnswersAlwaysSettled(actions);
    var w := Exec(actions);
    if a.DeliverReply? && a.k < |w.replies| && w.replies[a.k].device == d {
      ReplyLeavesOnlySettled(w, a.k, entry);
      if Settled(w, entry.token) {
        NextAdvances(w, a);
        SettledStable(w, Next(w, a), entry.token);
      }
    } else {
      OnlyRepliesShrinkQueues(w, a, d, entry);
    }
  }
}
