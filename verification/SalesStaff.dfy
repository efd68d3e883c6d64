/** Staff edits of batches and capacity, and the capacity chain they keep. */
module SalesStaff {
  import opened Base
  import opened SalesModel
  import opened SalesInvariant

  /** An edit that only touches batches and events. */
  ghost predicate EditsInventory(db: Db, db': Db) {
    db' == db.(batches := db'.batches, events := db'.events)
  }

  lemma InventoryEditKeeps(db: Db, db': Db)
    requires Inv(db) && EditsInventory(db, db') && |db.batches| <= |db'.batches|
    requires CountersMatch(db') && CapacityFits(db')
    ensures Inv(db') && Advances(db, db')
  {
    forall k | 0 <= k < |db'.holds| ensures HoldAgrees(db', db'.holds[k]) {
      assert HoldAgrees(db, db.holds[k]);
    }
    HoldUpdateKeepsUnitsHeld(db, db');
    SameTicketsAgree(db, db');
  }

  /** Staff may still edit the event: it is not cancelled, completed or archived. */
  predicate Editable(s: EventStatus) {
    s in {Draft, Published, SalesPaused, SalesClosed, Postponed}
  }

  lemma EditableExactly(s: EventStatus)
    ensures Editable(s) <==> !Terminal(s)
  {
    match s {
      case Draft =>
      case _ =>
    }
  }

  predicate BatchMayMove(from: BatchStatus, to: BatchStatus) {
    (from, to) in {
      (Scheduled, Open), (Scheduled, Closed), (Open, Closed), (Open, SoldOut), (Closed, Open), (SoldOut, Open)}
  }

  predicate EventMayMove(from: EventStatus, to: EventStatus) {
    || (from, to) in {
         (Draft, Published), (Draft, Archived), (Completed, Archived), (Published, SalesPaused), (Published, SalesClosed),
         (SalesPaused, Published), (SalesPaused, SalesClosed), (SalesClosed, Completed), (Postponed, Published)}
    || (to == EventCancelled && Editable(from))
    || (to == Postponed && from in {Published, SalesPaused, SalesClosed})
  }

  /** The sold and reserved units of the event's batches. */
  function SoldOrReserved(e: nat): Batch -> int {
    (b: Batch) => if b.eventId == e then b.sold + b.reserved else 0
  }

  /** The configured quantities of the event's batches. */
  function Quantity(e: nat): Batch -> int {
    (b: Batch) => if b.eventId == e then b.total else 0
  }

  /**
   * A batch is created exactly when the event can still be edited, the ticket type is one of its
   * own and the quantities of its batches, the new one included, fit the capacity.
   */
  lemma CreateSalesBatchExact(db: Db, e: nat, typeOf: Option<nat>, total: nat)
    requires Inv(db)
    ensures var db' := db.(batches := db.batches + [Batch(e, Scheduled, total, 0, 0)]);
      && (CreateSalesBatch(db, e, typeOf, total).Ok?
          <==> e < |db.events| && Editable(db.events[e].status) && typeOf == Some(e) && CapacityFits(db'))
      && (CreateSalesBatch(db, e, typeOf, total).Ok? ==>
            CreateSalesBatch(db, e, typeOf, total).value == db' && Inv(db') && Advances(db, db'))
      && (CreateSalesBatch(db, e, typeOf, total).Err? ==>
            CreateSalesBatch(db, e, typeOf, total).error ==
              if e >= |db.events| then NotFound else if !Editable(db.events[e].status) then NotEditable
              else if typeOf != Some(e) then NotFound else OverCapacity)
  {
    var batch := Batch(e, Scheduled, total, 0, 0);
    var db' := db.(batches := db.batches + [batch]);
    if e < |db.events| {
      EditableExactly(db.events[e].status);
      forall f ensures EventTotal(db', f) == EventTotal(db, f) + IfOf(f == e, total) {
        SumPush(db.batches, batch, TotalIn(f));
      }
      var n := |db.batches|;
      forall k | 0 <= k < |db.holds| ensures db.holds[k].batchId != n {
        assert HoldAgrees(db, db.holds[k]);
      }
      SumZero(db.holds, HeldIn(n, Active));
      SumZero(db.holds, HeldIn(n, Confirmed));
      if CapacityFits(db') {
        assert db.events[e].capacity.Some? ==> EventTotal(db', e) <= db.events[e].capacity.value;
        InventoryEditKeeps(db, db');
      }
    }
  }

  /**
   * A quantity edit is accepted exactly when the event can still be edited, a reason is given once
   * sales have begun, and afterwards committed units and event capacity both still fit.
   */
  lemma UpdateBatchQuantityExact(db: Db, b: nat, total: nat, justified: bool)
    requires Inv(db)
    ensures b >= |db.batches| ==> UpdateBatchQuantity(db, b, total, justified) == Err(NotFound)
    ensures b < |db.batches| ==>
      var batch := db.batches[b];
      var db' := db.(batches := db.batches[b := batch.(total := total)]);
      && (UpdateBatchQuantity(db, b, total, justified).Ok? <==>
            && Editable(db.events[batch.eventId].status)
            && (justified || (batch.status == Scheduled && batch.sold + batch.reserved == 0))
            && CountersMatch(db') && CapacityFits(db'))
      && (UpdateBatchQuantity(db, b, total, justified).Ok? ==> UpdateBatchQuantity(db, b, total, justified).value == db')
      && (UpdateBatchQuantity(db, b, total, justified).Err? ==>
            UpdateBatchQuantity(db, b, total, justified).error ==
              if !Editable(db.events[batch.eventId].status) then NotEditable
              else if !justified && (batch.status != Scheduled || batch.sold + batch.reserved > 0) then JustificationRequired
              else if total < batch.sold + batch.reserved then BelowCommitted else OverCapacity)
  {
    if b < |db.batches| {
      var batch := db.batches[b];
      var db' := db.(batches := db.batches[b := batch.(total := total)]);
      EditableExactly(db.events[batch.eventId].status);
      forall f ensures EventTotal(db', f) == EventTotal(db, f) + IfOf(f == batch.eventId, total - batch.total) {
        SumUpdate(db.batches, b, batch.(total := total), TotalIn(f));
      }
      if CountersMatch(db') && CapacityFits(db') {
        assert Committed(db'.batches[b]) <= total;
        assert db'.events[batch.eventId].capacity.Some? ==>
          EventTotal(db', batch.eventId) <= db'.events[batch.eventId].capacity.value;
      }
      if UpdateBatchQuantity(db, b, total, justified).Ok? {
        forall c | 0 <= c < |db'.batches| ensures Committed(db'.batches[c]) <= db'.batches[c].total {
          assert Committed(db.batches[c]) <= db.batches[c].total;
        }
      }
    }
  }

  lemma UpdateBatchQuantityKeeps(db: Db, b: nat, total: nat, justified: bool)
    requires Inv(db) && UpdateBatchQuantity(db, b, total, justified).Ok?
    ensures var db' := UpdateBatchQuantity(db, b, total, justified).value; Inv(db') && Advances(db, db')
  {
    UpdateBatchQuantityExact(db, b, total, justified);
    InventoryEditKeeps(db, UpdateBatchQuantity(db, b, total, justified).value);
  }

  /**
   * A batch moves exactly along the listed arrows while its event can be edited, and opens only with
   * room left; nothing but its status changes.
   */
  lemma TransitionBatchExact(db: Db, b: nat, to: BatchStatus)
    requires Inv(db)
    ensures b >= |db.batches| ==> TransitionBatch(db, b, to) == Err(NotFound)
    ensures b < |db.batches| ==>
      var x := db.batches[b];
      && (TransitionBatch(db, b, to).Ok? <==>
            && Editable(db.events[x.eventId].status) && BatchMayMove(x.status, to)
            && (to == Open ==> x.sold + x.reserved < x.total))
      && (TransitionBatch(db, b, to).Ok? ==>
            TransitionBatch(db, b, to).value
            == db.(batches := db.batches[b := Batch(x.eventId, to, x.total, x.sold, x.reserved)]))
      && (TransitionBatch(db, b, to).Err? ==>
            TransitionBatch(db, b, to).error ==
              if !Editable(db.events[x.eventId].status) then NotEditable
              else if !BatchMayMove(x.status, to) then BadTransition else NoRoom)
  {
    if b < |db.batches| {
      EditableExactly(db.events[db.batches[b].eventId].status);
      BatchMovesExactly(db.batches[b].status, to);
    }
  }

  lemma BatchMovesExactly(from: BatchStatus, to: BatchStatus)
    ensures to in BatchTransitions(from) <==> BatchMayMove(from, to)
  {
    match from {
      case Scheduled =>
      case _ =>
    }
  }

  lemma EventMovesExactly(from: EventStatus, to: EventStatus)
    ensures to in EventTransitions(from) <==> EventMayMove(from, to)
  {
    match from {
      case Draft =>
      case _ =>
    }
  }

  /** An event moves exactly along the listed arrows, and nothing but its status changes. */
  lemma TransitionEventExact(db: Db, e: nat, to: EventStatus)
    ensures TransitionEvent(db, e, to) ==
      if e >= |db.events| then Err(NotFound)
      else if !EventMayMove(db.events[e].status, to) then Err(BadTransition)
      else Ok(db.(events := db.events[e := Event(to, db.events[e].capacity)]))
  {
    if e < |db.events| {
      EventMovesExactly(db.events[e].status, to);
    }
  }

  lemma TransitionBatchKeeps(db: Db, b: nat, to: BatchStatus)
    requires Inv(db) && TransitionBatch(db, b, to).Ok?
    ensures var db' := TransitionBatch(db, b, to).value; Inv(db') && Advances(db, db')
  {
    var db' := TransitionBatch(db, b, to).value;
    TotalsUnchanged(db, db');
    InventoryEditKeeps(db, db');
  }

  /**
   * A capacity edit is accepted exactly for a justified positive value of an editable event that
   * still holds the configured batch quantities.
   */
  lemma ChangeEventCapacityExact(db: Db, e: nat, capacity: int, justified: bool)
    requires Inv(db)
    ensures ChangeEventCapacity(db, e, capacity, justified).Err? ==>
      ChangeEventCapacity(db, e, capacity, justified).error ==
        if capacity <= 0 then BadCapacity else if !justified then JustificationRequired
        else if e >= |db.events| then NotFound else if !Editable(db.events[e].status) then NotEditable
        else if capacity < Sum(db.batches, SoldOrReserved(e)) then BelowCommitted else OverCapacity
    ensures capacity <= 0 || e >= |db.events| ==> ChangeEventCapacity(db, e, capacity, justified).Err?
    ensures capacity > 0 && e < |db.events| ==>
      var db' := db.(events := db.events[e := db.events[e].(capacity := Some(capacity))]);
      && (ChangeEventCapacity(db, e, capacity, justified).Ok? <==>
            justified && Editable(db.events[e].status) && CapacityFits(db'))
      && (ChangeEventCapacity(db, e, capacity, justified).Ok? ==>
            ChangeEventCapacity(db, e, capacity, justified).value == db')
  {
    if capacity > 0 && e < |db.events| {
      var db' := db.(events := db.events[e := db.events[e].(capacity := Some(capacity))]);
      CommittedWithinTotal(db, e);
      EditableExactly(db.events[e].status);
      SumEq(db.batches, CommittedIn(e), SoldOrReserved(e));
      SameBatchesSameTotals(db, db');
      if CapacityFits(db') {
        assert EventTotal(db', e) <= db'.events[e].capacity.value;
      }
    }
  }

  lemma SameBatchesSameTotals(db: Db, db': Db)
    requires db'.batches == db.batches
    ensures forall f: nat :: EventTotal(db', f) == EventTotal(db, f)
  {
  }

  lemma ChangeEventCapacityKeeps(db: Db, e: nat, capacity: int, justified: bool)
    requires Inv(db) && ChangeEventCapacity(db, e, capacity, justified).Ok?
    ensures var db' := ChangeEventCapacity(db, e, capacity, justified).value; Inv(db') && Advances(db, db')
  {
    ChangeEventCapacityExact(db, e, capacity, justified);
    InventoryEditKeeps(db, ChangeEventCapacity(db, e, capacity, justified).value);
  }

  lemma TransitionEventKeeps(db: Db, e: nat, to: EventStatus)
    requires Inv(db) && TransitionEvent(db, e, to).Ok?
    ensures var db' := TransitionEvent(db, e, to).value; Inv(db') && Advances(db, db')
  {
    var db' := TransitionEvent(db, e, to).value;
    SameBatchesSameTotals(db, db');
    InventoryEditKeeps(db, db');
  }

  lemma NewEventKeeps(db: Db, event: Event)
    requires Inv(db)
    ensures var db' := db.(events := db.events + [event]); Inv(db') && Advances(db, db')
  {
    var db' := db.(events := db.events + [event]);
    SameBatchesSameTotals(db, db');
    SumZero(db.batches, TotalIn(|db.events|));
    if event.capacity.Some? {
      assert EventTotal(db', |db.events|) == 0;
    }
    InventoryEditKeeps(db, db');
  }

  lemma CommittedWithinTotal(db: Db, e: nat)
    requires CountersMatch(db)
    ensures Sum(db.batches, CommittedIn(e)) <= EventTotal(db, e)
  {
    SumLe(db.batches, CommittedIn(e), TotalIn(e));
  }

  /** The capacity chain: committed units of an event <= configured quantities <= capacity. */
  lemma CapacityChain(db: Db, e: nat)
    requires Inv(db) && e < |db.events|
    ensures Sum(db.batches, SoldOrReserved(e)) <= Sum(db.batches, Quantity(e))
    ensures db.events[e].capacity.Some? ==> Sum(db.batches, Quantity(e)) <= db.events[e].capacity.value
  {
    SumLe(db.batches, SoldOrReserved(e), Quantity(e));
    SumEq(db.batches, TotalIn(e), Quantity(e));
  }
}
