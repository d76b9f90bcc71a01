/**
 The inputs an approved transaction takes stay committed to it until the chain
 shows it: when that holds between records, and exactly which steps break it.
 */
module BroadcastReservations {
  import opened RecordStore
  import opened Broadcast
  import opened BroadcastJournal

  ghost predicate DistinctInputs(tx: Tx) {
    forall i, j | 0 <= i < j < |tx.inputs| :: tx.inputs[i] != tx.inputs[j]
  }

  function Inputs(r: Record): seq<OutPoint> {
    if r.raw.Some? then r.raw.value.inputs else []
  }

  ghost predicate Apart(r: Record, s: Record) {
    forall o | o in Inputs(r) :: o !in Inputs(s)
  }

  /** No two reserving records share an input. */
  ghost predicate Disjoint(rows: Rows) {
    forall a, b | a in rows && b in rows && a != b && Reserving(rows[a].value) && Reserving(rows[b].value) ::
      Apart(rows[a].value, rows[b].value)
  }

  /** The input is committed to an approved transaction that the chain has not shown. */
  ghost predicate Reserved(rows: Rows, o: OutPoint) {
    exists id | id in rows :: Reserving(rows[id].value) && o in Inputs(rows[id].value)
  }

  // ---- Collection: `collect_unobserved_approved_broadcast_inputs` -----------------------

  ghost predicate Readable(r: Record, network: int) {
    Valid(r) && (r.broadcast.Some? ==> r.broadcast.value.network == network)
  }

  /** Every record can be read and nothing is committed twice. */
  ghost predicate Collectable(rows: Rows, network: int) {
    && (forall id | id in rows :: Readable(rows[id].value, network))
    && (forall id | id in rows && Reserving(rows[id].value) :: DistinctInputs(rows[id].value.raw.value))
    && Disjoint(rows)
  }

  ghost predicate Collects(rows: Rows, network: int, c: CommittedInputs) {
    && (c.Ok? <==> |rows| < MAX_TRACKED && Collectable(rows, network))
    && (c.Ok? ==> forall o :: o in c.value <==> Reserved(rows, o))
  }

  /** The rows listed so far. */
  function Part(rows: Rows, ids: seq<nat>): Rows {
    map id | id in rows && id in ids :: rows[id]
  }

  ghost predicate Gathered(rows: Rows, ids: seq<nat>, network: int, got: set<OutPoint>) {
    Collectable(Part(rows, ids), network) && forall o :: o in got <==> Reserved(Part(rows, ids), o)
  }

  lemma GatherSkip(rows: Rows, ids: seq<nat>, id: nat, network: int, got: set<OutPoint>)
    requires Gathered(rows, ids, network, got) && id in rows && id !in ids
    requires Readable(rows[id].value, network) && !Reserving(rows[id].value)
    ensures Gathered(rows, ids + [id], network, got)
  {
    var before, after := Part(rows, ids), Part(rows, ids + [id]);
    hide Valid;
    assert after == before[id := rows[id]];
    assert Disjoint(after);
    forall o ensures o in got <==> Reserved(after, o) {
      if Reserved(before, o) {
        var k :| k in before && Reserving(before[k].value) && o in Inputs(before[k].value);
        assert k in after && Reserving(after[k].value);
      }
      if Reserved(after, o) {
        var k :| k in after && Reserving(after[k].value) && o in Inputs(after[k].value);
        assert k in before && Reserving(before[k].value);
      }
    }
  }

  lemma GatherTake(rows: Rows, ids: seq<nat>, id: nat, network: int, got: set<OutPoint>)
    requires Gathered(rows, ids, network, got) && id in rows && id !in ids
    requires Readable(rows[id].value, network) && Reserving(rows[id].value)
    requires DistinctInputs(rows[id].value.raw.value)
    requires forall o | o in Inputs(rows[id].value) :: o !in got
    ensures Gathered(rows, ids + [id], network, got + set o | o in Inputs(rows[id].value))
  {
    hide Valid;
    var before, after := Part(rows, ids), Part(rows, ids + [id]);
    var got' := got + set o | o in Inputs(rows[id].value);
    assert after == before[id := rows[id]];
    forall a, b | a in after && b in after && a != b && Reserving(after[a].value) && Reserving(after[b].value)
      ensures Apart(after[a].value, after[b].value)
    {
      if a != id && b != id { assert Apart(before[a].value, before[b].value); }
    }
    forall o ensures o in got' <==> Reserved(after, o) {
      if o in got' {
        if o in got {
          var k :| k in before && Reserving(before[k].value) && o in Inputs(before[k].value);
          assert k in after && Reserving(after[k].value);
        } else {
          assert id in after && Reserving(after[id].value);
        }
      }
      if Reserved(after, o) {
        var k :| k in after && Reserving(after[k].value) && o in Inputs(after[k].value);
        if k != id { assert k in before && Reserving(before[k].value); assert Reserved(before, o); }
      }
    }
  }

  /** A clash or an unreadable record among the rows defeats the collection. */
  lemma ClashRefutes(rows: Rows, ids: seq<nat>, id: nat, network: int, got: set<OutPoint>, o: OutPoint)
    requires Gathered(rows, ids, network, got) && id in rows && id !in ids
    requires Reserving(rows[id].value) && o in Inputs(rows[id].value) && o in got
    ensures !Collectable(rows, network)
  {
    hide Valid;
    var k :| k in Part(rows, ids) && Reserving(Part(rows, ids)[k].value) && o in Inputs(Part(rows, ids)[k].value);
    assert !Apart(rows[id].value, rows[k].value);
  }

  /**
   Walks the records once, adding inputs to a set; fails on a record it cannot
   read and on an input already in the set.
   */
  method Collect(rows: Rows, ids: seq<nat>, network: int) returns (c: CommittedInputs)
    requires forall id :: id in ids <==> id in rows
    requires forall i, j | 0 <= i < j < |ids| :: ids[i] != ids[j]
    requires |ids| == |rows|
    ensures Collects(rows, network, c)
  {
    hide Valid;
    hide Collectable;
    if |ids| >= MAX_TRACKED { return Err(Capacity); }
    var got: set<OutPoint> := {};
    assert Part(rows, ids[..0]) == map[];
    NothingGathered(rows, ids[..0], network);
    var i := 0;
    while i < |ids|
      invariant 0 <= i <= |ids|
      invariant Gathered(rows, ids[..i], network, got)
    {
      var id := ids[i];
      assert id in ids && id in rows;
      var r := rows[id].value;
      assert ids[..i + 1] == ids[..i] + [id];
      assert id !in ids[..i];
      if !Valid(r) || (r.broadcast.Some? && r.broadcast.value.network != network) {
        UnreadableRefutes(rows, id, network);
        return Err(if Valid(r) then NetworkMismatch else Corrupt);
      }
      if r.broadcast.Some? && r.observation.Absent? {
        ValidHasRaw(r);
        var taken := TakeInputs(got, r.raw.value.inputs);
        if taken.None? {
          TwiceRefutes(rows, ids[..i], id, network, got);
          return Err(Conflict);
        }
        GatherTake(rows, ids[..i], id, network, got);
        got := taken.value;
      } else {
        GatherSkip(rows, ids[..i], id, network, got);
      }
      i := i + 1;
    }
    assert ids[..i] == ids;
    assert Part(rows, ids) == rows;
    c := Ok(got);
  }

  lemma NothingGathered(rows: Rows, ids: seq<nat>, network: int)
    requires ids == []
    ensures Gathered(rows, ids, network, {})
  {
    assert Part(rows, ids) == map[];
  }

  lemma ValidHasRaw(r: Record)
    requires Valid(r) && r.broadcast.Some?
    ensures r.raw.Some?
  {
  }

  lemma UnreadableRefutes(rows: Rows, id: nat, network: int)
    requires id in rows && !Readable(rows[id].value, network)
    ensures !Collectable(rows, network)
  {
  }

  lemma TwiceRefutes(rows: Rows, ids: seq<nat>, id: nat, network: int, got: set<OutPoint>)
    requires Gathered(rows, ids, network, got) && id in rows && id !in ids && Reserving(rows[id].value)
    requires !DistinctInputs(rows[id].value.raw.value) || exists o | o in Inputs(rows[id].value) :: o in got
    ensures !Collectable(rows, network)
  {
    if o :| o in Inputs(rows[id].value) && o in got {
      ClashRefutes(rows, ids, id, network, got, o);
    }
  }

  /** Inserts each input, giving up at the first one already there. */
  method TakeInputs(got: set<OutPoint>, inputs: seq<OutPoint>) returns (r: Option<set<OutPoint>>)
    ensures r.Some? <==> (forall i, j | 0 <= i < j < |inputs| :: inputs[i] != inputs[j]) && (forall o | o in inputs :: o !in got)
    ensures r.Some? ==> r.value == got + set o | o in inputs
  {
    var all := got;
    var i := 0;
    while i < |inputs|
      invariant 0 <= i <= |inputs|
      invariant all == got + set o | o in inputs[..i]
      invariant forall a, b | 0 <= a < b < i :: inputs[a] != inputs[b]
      invariant forall o | o in inputs[..i] :: o !in got
    {
      assert inputs[..i + 1] == inputs[..i] + [inputs[i]];
      if inputs[i] in all {
        assert inputs[i] in got || inputs[i] in inputs[..i];
        return None;
      }
      all := all + {inputs[i]};
      i := i + 1;
    }
    assert inputs[..i] == inputs;
    r := Some(all);
  }

  // ---- Which steps keep the reservations apart -----------------------------------------------

  /** The record's inputs are free of every reserving record other than its own. */
  ghost predicate Clear(rows: Rows, txid: nat, inputs: seq<OutPoint>) {
    forall id | id in rows && id != txid && Reserving(rows[id].value) :: forall o | o in inputs :: o !in Inputs(rows[id].value)
  }

  /** A write keeps the reservations apart exactly when what it now reserves is clear. */
  lemma PutDisjoint(rows: Rows, txid: nat, r: Record)
    requires Disjoint(rows)
    ensures Disjoint(Put(rows, txid, r)) <==> (Reserving(r) ==> Clear(rows, txid, Inputs(r)))
  {
    var after := Put(rows, txid, r);
    if Disjoint(after) && Reserving(r) {
      forall id | id in rows && id != txid && Reserving(rows[id].value)
        ensures forall o | o in Inputs(r) :: o !in Inputs(rows[id].value)
      {
        assert Apart(after[txid].value, after[id].value);
      }
    }
    if Reserving(r) ==> Clear(rows, txid, Inputs(r)) {
      forall a, b | a in after && b in after && a != b && Reserving(after[a].value) && Reserving(after[b].value)
        ensures Apart(after[a].value, after[b].value)
      {
        if a != txid && b != txid { assert Apart(rows[a].value, rows[b].value); }
      }
    }
  }

  /** A write of the same bytes at the same place in the chain changes no reservation. */
  lemma SameReservation(rows: Rows, txid: nat, r: Record)
    requires Disjoint(rows) && txid in rows && Reserving(rows[txid].value) && Inputs(r) == Inputs(rows[txid].value)
    ensures Disjoint(Put(rows, txid, r))
  {
    PutDisjoint(rows, txid, r);
    forall id | id in rows && id != txid && Reserving(rows[id].value)
      ensures forall o | o in Inputs(r) :: o !in Inputs(rows[id].value)
    {
      assert Apart(rows[txid].value, rows[id].value);
    }
  }

  /** The overlap test an approval uses is the one made over the current records. */
  ghost predicate HonestTest(w: World, a: Action) {
    a.DoApprove? ==> Collects(w.rows, a.approval.network, a.committed)
  }

  /**
   What a step needs: nothing for a first approval, a submission, its
   completion, an expiry or a first observation. An allowed approval of an
   unobserved record whose approval was dropped, and the return of an approved
   observed transaction to the unobserved ones, need the inputs to be clear of
   the other reservations.
   */
  ghost predicate StepClear(w: World, a: Action) {
    match a
    case DoApprove(tx, ap, expected, now, _) =>
      tx.txid in w.rows && w.rows[tx.txid].value.broadcast.None? && w.rows[tx.txid].value.observation.Absent?
        && TermsAllowed(w.rows, tx, ap, expected, now) ==>
          Clear(w.rows, tx.txid, tx.inputs)
    case DoReconcile(txid, seen, _) =>
      txid in w.rows && w.rows[txid].value.broadcast.Some? && !w.rows[txid].value.observation.Absent?
        && (seen.None? || seen.value.observation.Absent?) ==>
          Clear(w.rows, txid, Inputs(w.rows[txid].value))
    case _ => true
  }

  lemma ApproveDisjoint(w: World, tx: Tx, ap: Approval, expected: nat, now: nat, committed: CommittedInputs)
    requires Inv(w) && Disjoint(w.rows)
    requires Collects(w.rows, ap.network, committed)
    ensures var a := DoApprove(tx, ap, expected, now, committed);
            Disjoint(Next(w, a).rows) <==> StepClear(w, a)
  {
    hide Collectable;
    var a := DoApprove(tx, ap, expected, now, committed);
    var outcome := Approve(w.rows, tx, ap, expected, now, committed);
    assert RecordInv(w.rows, tx.txid, Sends(w, tx.txid));
    if tx.txid in w.rows && w.rows[tx.txid].value.broadcast.None? {
      ApprovesExactlyWhen(w, tx, ap, expected, now, committed);
    }
    if outcome.Ok? && outcome.value != w.rows {
      var r := Approved(Target(w.rows, tx, ap, now), tx, ap, now);
      assert Next(w, a).rows == Put(w.rows, tx.txid, r);
      PutDisjoint(w.rows, tx.txid, r);
      if tx.txid !in w.rows {
        forall id, o | id in w.rows && Reserving(w.rows[id].value) && o in tx.inputs ensures o !in Inputs(w.rows[id].value) {
          assert !Reserved(w.rows, o);
        }
      }
    }
  }

  lemma BeginDisjoint(w: World, slot: nat, network: int, txid: nat, now: nat)
    requires Inv(w) && Disjoint(w.rows)
    ensures Disjoint(AfterBegin(w, slot, network, txid, now).rows)
  {
    assert RecordInv(w.rows, txid, Sends(w, txid));
    var b := Begin(w.rows, network, txid, now);
    if b.Submit? {
      SameReservation(w.rows, txid, Started(w.rows[txid].value, now));
    } else if b.Refused? && b.rows != w.rows {
      PutDisjoint(w.rows, txid, Dropped(w.rows[txid].value, now));
    }
  }

  lemma FinishDisjoint(w: World, slot: nat)
    requires Inv(w) && Disjoint(w.rows)
    ensures Disjoint(AfterFinish(w, slot).rows)
  {
    if slot in w.inFlight {
      var f := w.inFlight[slot];
      assert FlightInv(w.rows, f);
      assert RecordInv(w.rows, f.txid, Sends(w, f.txid));
      if Revision(w.rows, f.txid) == f.revision {
        if Reserving(f.record) {
          SameReservation(w.rows, f.txid, Sent(f.record, f.now));
        } else {
          PutDisjoint(w.rows, f.txid, Sent(f.record, f.now));
        }
      }
    }
  }

  lemma ReconcileDisjoint(w: World, txid: nat, seen: Option<Seen>, now: nat)
    requires Inv(w) && Disjoint(w.rows)
    ensures var a := DoReconcile(txid, seen, now);
            Disjoint(Next(w, a).rows) <==> StepClear(w, a)
  {
    assert RecordInv(w.rows, txid, Sends(w, txid));
    var prior := if txid in w.rows then Some(w.rows[txid].value) else None;
    var next := Reconciled(prior, txid, seen, now);
    if next.Some? && next != prior {
      PutDisjoint(w.rows, txid, next.value);
      if prior.Some? && Reserving(prior.value) { SameReservation(w.rows, txid, next.value); }
    }
  }

  /** One step keeps the reservations apart exactly when it meets its condition. */
  lemma StepDisjointIff(w: World, a: Action)
    requires Inv(w) && Disjoint(w.rows) && HonestTest(w, a)
    ensures Disjoint(Next(w, a).rows) <==> StepClear(w, a)
  {
    hide Inv; hide Disjoint; hide Collects; hide Approve; hide Reconciled; hide TermsAllowed;
    match a
    case DoApprove(tx, ap, expected, now, committed) => ApproveDisjoint(w, tx, ap, expected, now, committed);
    case DoBegin(slot, network, txid, now) => BeginDisjoint(w, slot, network, txid, now);
    case DoFinish(slot) => FinishDisjoint(w, slot);
    case DoAbandon(txid, now) =>
      if Expirable(w.rows, txid) { PutDisjoint(w.rows, txid, Dropped(w.rows[txid].value, now)); }
    case DoReconcile(txid, seen, now) => ReconcileDisjoint(w, txid, seen, now);
  }

  function Before(w: World, actions: seq<Action>, i: nat): World
    requires i <= |actions|
  {
    Run(w, actions[..i])
  }

  ghost predicate AlwaysDisjoint(w: World, actions: seq<Action>) {
    forall i | 0 <= i <= |actions| :: Disjoint(Before(w, actions, i).rows)
  }

  /** Every step up to the `n`th meets its condition. */
  ghost predicate AlwaysClear(w: World, actions: seq<Action>, n: nat)
    requires n <= |actions|
  {
    forall i | 0 <= i < n :: StepClear(Before(w, actions, i), actions[i])
  }

  lemma BeforeStep(w: World, actions: seq<Action>, i: nat)
    requires i < |actions|
    ensures Before(w, actions, i + 1) == Next(Before(w, actions, i), actions[i])
  {
    assert actions[..i + 1][..i] == actions[..i];
  }

  lemma {:induction false} ClearMeansDisjoint(w: World, actions: seq<Action>, n: nat)
    requires n <= |actions| && Inv(w) && Disjoint(w.rows)
    requires forall i | 0 <= i < |actions| :: HonestTest(Before(w, actions, i), actions[i])
    requires AlwaysClear(w, actions, n)
    ensures Disjoint(Before(w, actions, n).rows)
    decreases n
  {
    hide Inv; hide Disjoint; hide HonestTest; hide StepClear; hide Next;
    if n != 0 {
      ClearMeansDisjoint(w, actions, n - 1);
      RunKeeps(w, actions[..n - 1]);
      StepDisjointIff(Before(w, actions, n - 1), actions[n - 1]);
      BeforeStep(w, actions, n - 1);
    }
  }

  /**
   Over a whole run, no input is ever committed to two unobserved approved
   transactions if and only if every re-approval of a dropped record and every
   return of an observed one finds its inputs free.
   */
  lemma RunDisjointIff(w: World, actions: seq<Action>)
    requires Inv(w) && Disjoint(w.rows)
    requires forall i | 0 <= i < |actions| :: HonestTest(Before(w, actions, i), actions[i])
    ensures AlwaysDisjoint(w, actions) <==> AlwaysClear(w, actions, |actions|)
  {
    hide Inv; hide Disjoint; hide HonestTest; hide StepClear; hide Next;
    if AlwaysDisjoint(w, actions) {
      forall i | 0 <= i < |actions| ensures StepClear(Before(w, actions, i), actions[i]) {
        RunKeeps(w, actions[..i]);
        StepDisjointIff(Before(w, actions, i), actions[i]);
        BeforeStep(w, actions, i);
        assert Disjoint(Before(w, actions, i + 1).rows);
      }
    }
    if AlwaysClear(w, actions, |actions|) {
      forall i | 0 <= i <= |actions| ensures Disjoint(Before(w, actions, i).rows) {
        ClearMeansDisjoint(w, actions, i);
      }
    }
  }

  // ---- A run that commits one input twice -----------------------------------------------------

  const SHARED: OutPoint := OutPoint(9, 0)
  const FIRST: Tx := Tx(1, 1, [SHARED], Marker)
  const SECOND: Tx := Tx(2, 2, [SHARED], NoData)
  const EARLY: Approval := Approval(0, 5, 10, 100)
  const LATER: Approval := Approval(0, 5, 10, 200)

  /**
   Approve a funding transaction; its submission at expiry drops it; approve
   another spend of the same input; approve the first again.
   */
  const REAPPROVAL: seq<Action> := [
    DoApprove(FIRST, EARLY, 0, 1, Ok({})), DoBegin(0, 0, 1, 100),
    DoApprove(SECOND, LATER, 0, 101, Ok({})), DoApprove(FIRST, LATER, 2, 102, Ok({SHARED}))]

  const START: World := World(map[], map[], map[])
  const APPROVED_ROWS: Rows := map[1 := Stored(1, Approved(NewRecord(FIRST, EARLY, 1), FIRST, EARLY, 1))]
  const DROPPED_ROWS: Rows := map[1 := Stored(2, Dropped(APPROVED_ROWS[1].value, 100))]
  const OTHER_ROWS: Rows := DROPPED_ROWS[2 := Stored(1, Approved(NewRecord(SECOND, LATER, 101), SECOND, LATER, 101))]
  const TWICE_ROWS: Rows := OTHER_ROWS[1 := Stored(3, Approved(DROPPED_ROWS[1].value, FIRST, LATER, 102))]

  lemma ReapprovalSteps()
    ensures Before(START, REAPPROVAL, 0) == START
    ensures Before(START, REAPPROVAL, 1) == World(APPROVED_ROWS, map[], map[])
    ensures Before(START, REAPPROVAL, 2) == World(DROPPED_ROWS, map[], map[])
    ensures Before(START, REAPPROVAL, 3) == World(OTHER_ROWS, map[], map[])
    ensures Before(START, REAPPROVAL, 4) == World(TWICE_ROWS, map[], map[])
  {
    var a := REAPPROVAL;
    assert a[..0] == [];
    BeforeStep(START, a, 0);
    BeforeStep(START, a, 1);
    BeforeStep(START, a, 2);
    BeforeStep(START, a, 3);
    hide Run; hide Before;
    assert Approve(map[], FIRST, EARLY, 0, 1, Ok({})) == Ok(APPROVED_ROWS);
    assert Begin(APPROVED_ROWS, 0, 1, 100) == Refused(DROPPED_ROWS, ApprovalExpired);
    assert Approve(DROPPED_ROWS, SECOND, LATER, 0, 101, Ok({})) == Ok(OTHER_ROWS);
    assert Approve(OTHER_ROWS, FIRST, LATER, 2, 102, Ok({SHARED})) == Ok(TWICE_ROWS);
  }

  lemma NoneReserves(rows: Rows, network: int)
    requires |rows| < MAX_TRACKED && forall id | id in rows :: Readable(rows[id].value, network) && !Reserving(rows[id].value)
    ensures Collects(rows, network, Ok({}))
  {
    hide Readable; hide Reserving;
    assert Disjoint(rows);
    assert forall o :: !Reserved(rows, o);
  }

  lemma OneReserves(rows: Rows, network: int, id: nat, o: OutPoint)
    requires |rows| < MAX_TRACKED && forall k | k in rows :: Readable(rows[k].value, network) && (Reserving(rows[k].value) <==> k == id)
    requires id in rows && rows[id].value.raw.Some? && rows[id].value.raw.value.inputs == [o]
    ensures Collects(rows, network, Ok({o}))
  {
    hide Readable; hide Reserving;
    assert Disjoint(rows);
    assert Inputs(rows[id].value) == [o];
    forall x ensures x in {o} <==> Reserved(rows, x) { }
  }

  /** Every overlap test of the run is the one the records give. */
  lemma ReapprovalTestsHonest()
    ensures Collects(map[], 0, Ok({})) && Collects(DROPPED_ROWS, 0, Ok({})) && Collects(OTHER_ROWS, 0, Ok({SHARED}))
  {
    hide Collects;
    NoneReserves(map[], 0);
    assert |DROPPED_ROWS| == 1 && |OTHER_ROWS| == 2;
    NoneReserves(DROPPED_ROWS, 0);
    OneReserves(OTHER_ROWS, 0, 2, SHARED);
  }

  lemma ReapprovalCommitsTwice()
    ensures forall i | 0 <= i < |REAPPROVAL| :: HonestTest(Before(START, REAPPROVAL, i), REAPPROVAL[i])
    ensures var w := Before(START, REAPPROVAL, |REAPPROVAL|);
            && 1 in w.rows && 2 in w.rows
            && Reserving(w.rows[1].value) && Reserving(w.rows[2].value)
            && SHARED in Inputs(w.rows[1].value) && SHARED in Inputs(w.rows[2].value)
            && !Disjoint(w.rows)
  {
    ReapprovalSteps();
    ReapprovalTestsHonest();
    hide Collects; hide Before;
    var w := World(TWICE_ROWS, map[], map[]);
    assert FIRST.inputs[0] == SHARED && SECOND.inputs[0] == SHARED;
    assert SHARED in Inputs(w.rows[1].value) && SHARED in Inputs(w.rows[2].value);
    assert !Apart(w.rows[1].value, w.rows[2].value);
  }

  /** Once two records share an input, no transaction without a record can be approved. */
  lemma SharedInputBlocksApprovals(rows: Rows, tx: Tx, ap: Approval, expected: nat, now: nat, c: CommittedInputs)
    requires !Disjoint(rows) && Collects(rows, ap.network, c) && tx.txid !in rows
    ensures Approve(rows, tx, ap, expected, now, c).Err?
  {
  }

  // ---- Reorganizations -------------------------------------------------------------------------

  /** No two approved records share an input, whatever the chain shows of them. */
  ghost predicate ApprovedApart(rows: Rows) {
    forall a, b | a in rows && b in rows && a != b :: Apart(rows[a].value, rows[b].value)
  }

  /** An approval takes only inputs that no approved transaction spends. */
  ghost predicate TakesUnspent(w: World, a: Action) {
    a.DoApprove? ==> forall id | id in w.rows && id != a.tx.txid :: forall o | o in a.tx.inputs :: o !in Inputs(w.rows[id].value)
  }

  lemma PutApart(rows: Rows, txid: nat, r: Record)
    requires ApprovedApart(rows)
    requires forall id | id in rows && id != txid :: forall o | o in Inputs(r) :: o !in Inputs(rows[id].value)
    ensures ApprovedApart(Put(rows, txid, r))
  {
    var after := Put(rows, txid, r);
    forall a, b | a in after && b in after && a != b ensures Apart(after[a].value, after[b].value) {
      if a != txid && b != txid { assert Apart(rows[a].value, rows[b].value); }
    }
  }

  lemma PutSameApart(rows: Rows, txid: nat, r: Record)
    requires ApprovedApart(rows)
    requires Inputs(r) == [] || (txid in rows && Inputs(r) == Inputs(rows[txid].value))
    ensures ApprovedApart(Put(rows, txid, r))
  {
    forall id, o | id in rows && id != txid && o in Inputs(r) ensures o !in Inputs(rows[id].value) {
      assert Apart(rows[txid].value, rows[id].value);
    }
    PutApart(rows, txid, r);
  }

  lemma ApproveApart(w: World, tx: Tx, ap: Approval, expected: nat, now: nat, committed: CommittedInputs)
    requires ApprovedApart(w.rows) && TakesUnspent(w, DoApprove(tx, ap, expected, now, committed))
    ensures ApprovedApart(Next(w, DoApprove(tx, ap, expected, now, committed)).rows)
  {
    hide Valid; hide ApprovedApart;
    var outcome := Approve(w.rows, tx, ap, expected, now, committed);
    if outcome.Ok? && outcome.value != w.rows { PutApart(w.rows, tx.txid, Approved(Target(w.rows, tx, ap, now), tx, ap, now)); }
  }

  lemma BeginApart(w: World, slot: nat, network: int, txid: nat, now: nat)
    requires ApprovedApart(w.rows)
    ensures ApprovedApart(AfterBegin(w, slot, network, txid, now).rows)
  {
    hide Valid; hide ApprovedApart; hide IsPublication;
    var b := Begin(w.rows, network, txid, now);
    if b.Submit? { PutSameApart(w.rows, txid, b.record); }
    else if b.Refused? && b.rows != w.rows { PutSameApart(w.rows, txid, Dropped(w.rows[txid].value, now)); }
  }

  lemma FinishApart(w: World, slot: nat)
    requires ApprovedApart(w.rows) && (slot in w.inFlight ==> FlightInv(w.rows, w.inFlight[slot]))
    ensures ApprovedApart(AfterFinish(w, slot).rows)
  {
    hide ApprovedApart;
    if slot in w.inFlight {
      var f := w.inFlight[slot];
      if f.revision == Revision(w.rows, f.txid) { PutSameApart(w.rows, f.txid, Sent(f.record, f.now)); }
    }
  }

  lemma ReconcileApart(w: World, txid: nat, seen: Option<Seen>, now: nat)
    requires ApprovedApart(w.rows)
    ensures ApprovedApart(Next(w, DoReconcile(txid, seen, now)).rows)
  {
    hide ApprovedApart;
    var prior := if txid in w.rows then Some(w.rows[txid].value) else None;
    var next := Reconciled(prior, txid, seen, now);
    if next.Some? && next != prior { PutSameApart(w.rows, txid, next.value); }
  }

  lemma StepKeepsApart(w: World, a: Action)
    requires Inv(w) && ApprovedApart(w.rows) && TakesUnspent(w, a)
    ensures ApprovedApart(Next(w, a).rows)
  {
    hide ApprovedApart; hide TakesUnspent; hide Approve; hide Reconciled; hide AfterBegin; hide AfterFinish; hide RecordInv; hide FlightInv;
    match a
    case DoApprove(tx, ap, expected, now, committed) => ApproveApart(w, tx, ap, expected, now, committed);
    case DoBegin(slot, network, txid, now) => BeginApart(w, slot, network, txid, now);
    case DoFinish(slot) => FinishApart(w, slot);
    case DoAbandon(txid, now) =>
      if Expirable(w.rows, txid) { PutSameApart(w.rows, txid, Dropped(w.rows[txid].value, now)); }
    case DoReconcile(txid, seen, now) => ReconcileApart(w, txid, seen, now);
  }

  /**
   When approvals take only unspent inputs, no run commits an input twice, with
   any observations and any reorganizations in between.
   */
  lemma {:induction false} UnspentInputsStayApart(w: World, actions: seq<Action>, n: nat)
    requires n <= |actions| && Inv(w) && ApprovedApart(w.rows)
    requires forall i | 0 <= i < |actions| :: TakesUnspent(Before(w, actions, i), actions[i])
    ensures ApprovedApart(Before(w, actions, n).rows) && Disjoint(Before(w, actions, n).rows)
    decreases n
  {
    if n != 0 {
      hide Inv; hide TakesUnspent; hide Next;
      UnspentInputsStayApart(w, actions, n - 1);
      RunKeeps(w, actions[..n - 1]);
      StepKeepsApart(Before(w, actions, n - 1), actions[n - 1]);
      BeforeStep(w, actions, n - 1);
    }
  }
}
