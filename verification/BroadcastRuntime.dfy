/**
 The journal operations as they act on the store object: one approval, one
 start of a submission, and the reconciliation of every record with the wallet's
 view of the chain.
 */
module BroadcastRuntime {
  import opened RecordStore
  import opened Broadcast
  import opened BroadcastOrder
  import opened BroadcastJournal
  import opened BroadcastReservations
  import opened BroadcastAbandon

  const MAX_RECONCILIATION_SAVES: nat := 512

  /**
   `persist_approved_bitcoin_broadcast`. The overlap test is made over the
   records as they are, and only for a transaction without a record.
   */
  method PersistApproved(store: WalletStore<nat, Record>, tx: Tx, a: Approval, expected: nat, now: nat)
    returns (r: Result<nat, Error>, ghost committed: CommittedInputs)
    modifies store
    ensures tx.txid !in old(store.table) && expected == 0 && now < a.expiresAt <= now + MAX_APPROVAL_SECONDS ==>
              Collects(old(store.table), a.network, committed)
    ensures var outcome := Approve(old(store.table), tx, a, expected, now, committed);
            && (r.Ok? <==> outcome.Ok?)
            && (r.Ok? ==> store.table == outcome.value && r.value == Revision(store.table, tx.txid))
            && (r.Err? ==> store.table == old(store.table) && r.error == outcome.error)
  {
    hide Collects; hide Valid;
    var rows := store.table;
    committed := Ok({});
    if a.expiresAt <= now || a.expiresAt > now + MAX_APPROVAL_SECONDS { return Err(InvalidApproval), committed; }
    if Revision(rows, tx.txid) != expected { return Err(Conflict), committed; }
    if tx.txid !in rows {
      var ids := Members(rows.Keys);
      var c := Collect(rows, ids, a.network);
      committed := c;
      if c.Err? { return Err(c.error), committed; }
      if exists o | o in tx.inputs :: o in c.value { return Err(Conflict), committed; }
    }
    var record := Target(rows, tx, a, now);
    if !Valid(record) { return Err(Corrupt), committed; }
    if record.txid != tx.txid || record.wtxid != tx.wtxid || (record.fee.Some? && record.fee.value != a.fee) {
      return Err(Conflict), committed;
    }
    if record.broadcast.Some? {
      var i := record.broadcast.value;
      if record.raw == Some(tx) && i.network == a.network && i.commitment == Bind(a, tx) && i.fee == a.fee
         && i.maxFee == a.maxFee && i.expiresAt == a.expiresAt
      {
        return Ok(expected), committed;
      }
      return Err(Conflict), committed;
    }
    record := Approved(record, tx, a, now);
    if !Valid(record) { return Err(Corrupt), committed; }
    var saved := store.SaveOne(tx.txid, expected, record);
    r := Ok(expected + 1);
  }

  /** `begin_broadcast_submission`: the attempt is counted durably before anything is sent. */
  method BeginSubmission(store: WalletStore<nat, Record>, network: int, txid: nat, now: nat) returns (b: Begun)
    modifies store
    ensures b == Begin(old(store.table), network, txid, now)
    ensures store.table == if b.Observed? then old(store.table) else b.rows
    ensures b.Submit? ==> b.revision == Revision(store.table, txid)
  {
    hide Valid; hide IsPublication;
    var rows := store.table;
    if txid !in rows { return Refused(rows, NotFound); }
    var record := rows[txid].value;
    if !Valid(record) { return Refused(rows, Corrupt); }
    if record.raw.None? || record.broadcast.None? { return Refused(rows, NotPrepared); }
    if record.raw.value.txid != txid { return Refused(rows, Conflict); }
    var intent := record.broadcast.value;
    if intent.network != network { return Refused(rows, NetworkMismatch); }
    if now < intent.preparedAt { return Refused(rows, ClockRollback); }
    if !record.observation.Absent? { return Observed; }
    if IsPublication(record.raw.value) && now >= intent.expiresAt {
      if intent.attempts == 0 {
        var saved := store.SaveOne(txid, rows[txid].revision, Dropped(record, now));
      }
      return Refused(store.table, ApprovalExpired);
    }
    var last := LastAttempt(intent);
    if last.Some? {
      if now < last.value { return Refused(rows, ClockRollback); }
      if last.value + MIN_RETRY_SECONDS > U64_MAX { return Refused(rows, SequenceOverflow); }
      if now < last.value + MIN_RETRY_SECONDS { return Refused(rows, RetryNotReady); }
    }
    if intent.attempts >= MAX_ATTEMPTS { return Refused(rows, AttemptLimit); }
    intent := intent.(attempts := intent.attempts + 1, phase := SubmissionStarted, startedAt := Some(now));
    record := record.(broadcast := Some(intent));
    var saved := store.SaveOne(txid, rows[txid].revision, record);
    b := Submit(store.table, record, rows[txid].revision + 1);
  }

  // ---- The start of a resume pass -------------------------------------------------------------

  /** The records of the rows, in the order of their ids. */
  ghost predicate ListsRecords(rows: Rows, records: seq<Record>) {
    && |records| == |rows|
    && (forall k | 0 <= k < |records| :: exists id | id in rows :: rows[id].value == records[k])
    && (forall id | id in rows :: rows[id].value in records)
  }

  method ListRecords(rows: Rows) returns (records: seq<Record>)
    ensures ListsRecords(rows, records)
  {
    var ids := Members(rows.Keys);
    records := [];
    var i := 0;
    while i < |ids|
      invariant 0 <= i <= |ids| && |records| == i
      invariant forall k | 0 <= k < i :: records[k] == rows[ids[k]].value
    {
      assert ids[i] in ids;
      records := records + [rows[ids[i]].value];
      i := i + 1;
    }
    forall id | id in rows ensures rows[id].value in records {
      var k :| 0 <= k < |ids| && ids[k] == id;
      assert records[k] == rows[id].value;
    }
    forall k | 0 <= k < |records| ensures exists id | id in rows :: rows[id].value == records[k] {
      assert ids[k] in ids;
    }
  }

  /**
   The first half of `resume_approved_broadcasts`: abandon, then order. A failing
   abandonment ends the pass before anything is ordered or submitted.
   */
  method StartResume(store: WalletStore<nat, Record>, network: int, now: nat)
    returns (r: Result<seq<Entry>, Error>, ghost records: seq<Record>)
    modifies store
    ensures !OnlyPublications(old(store.table), now) ==> r.Err? && store.table == old(store.table)
    ensures r.Ok? ==>
              && Abandoned(old(store.table), now, store.table) && ListsRecords(store.table, records)
              && IsOrder(ResumableParents(records), Exhausted(records), r.value)
  {
    hide OnlyPublications; hide Abandoned; hide IsOrder; hide ResumableParents; hide Exhausted; hide Sound; hide OneNetwork;
    records := [];
    var abandoned := AbandonExpired(store, network, now);
    if abandoned.Err? { return Err(abandoned.error), records; }
    var listed := ListRecords(store.table);
    records := listed;
    if |listed| > MAX_TRACKED { return Err(Capacity), records; }
    r := ApprovedOrder(listed);
  }

  // ---- Reconciliation ----------------------------------------------------------------------

  type View = map<nat, Seen>

  function Prior(rows: Rows, id: nat): Option<Record> {
    if id in rows then Some(rows[id].value) else None
  }

  function ViewTarget(rows: Rows, view: View, now: nat, id: nat): Option<Record> {
    Reconciled(Prior(rows, id), id, if id in view then Some(view[id]) else None, now)
  }

  /** The record's observation, amounts or fee disagree with the view. */
  predicate Changes(rows: Rows, view: View, now: nat, id: nat) {
    ViewTarget(rows, view, now, id) != Prior(rows, id)
  }

  lemma ChangesToSome(rows: Rows, view: View, now: nat, id: nat)
    requires Changes(rows, view, now, id)
    ensures ViewTarget(rows, view, now, id).Some?
  {
  }

  function Change(rows: Rows, view: View, now: nat, id: nat): Save<nat, Record>
    requires Changes(rows, view, now, id)
  {
    ChangesToSome(rows, view, now, id);
    Save(id, Revision(rows, id), ViewTarget(rows, view, now, id).value)
  }

  /** Exactly the records that disagree with the view are written, once each. */
  ghost predicate Reconciliation(rows: Rows, view: View, now: nat, after: Rows) {
    && (forall id | id in rows || id in view || id in after :: RowReconciled(rows, view, now, after, id))
  }

  ghost predicate RowReconciled(rows: Rows, view: View, now: nat, after: Rows, id: nat) {
    if Changes(rows, view, now, id) then
      id in after && after[id] == Stored(Revision(rows, id) + 1, Change(rows, view, now, id).value)
    else (id in after <==> id in rows) && (id in rows ==> after[id] == rows[id])
  }

  /** The saves for the ids seen so far. */
  ghost predicate SavesFor(rows: Rows, view: View, now: nat, seen: set<nat>, saves: seq<Save<nat, Record>>) {
    && DistinctSaves(saves)
    && (forall i | 0 <= i < |saves| :: saves[i].id in seen && IsChange(rows, view, now, saves[i]))
    && (forall id | id in seen && Changes(rows, view, now, id) :: exists i | 0 <= i < |saves| :: saves[i].id == id)
  }

  ghost predicate IsChange(rows: Rows, view: View, now: nat, save: Save<nat, Record>) {
    Changes(rows, view, now, save.id) && save == Change(rows, view, now, save.id)
  }

  lemma SaveMore(rows: Rows, view: View, now: nat, seen: set<nat>, saves: seq<Save<nat, Record>>, id: nat)
    requires SavesFor(rows, view, now, seen, saves) && id !in seen
    ensures SavesFor(rows, view, now, seen + {id},
                     if Changes(rows, view, now, id) then saves + [Change(rows, view, now, id)] else saves)
  {
    hide Changes; hide Change;
    if Changes(rows, view, now, id) {
      var longer := saves + [Change(rows, view, now, id)];
      assert longer[|saves|].id == id by { ChangeId(rows, view, now, id); }
      forall k | k in seen + {id} && Changes(rows, view, now, k) ensures exists i | 0 <= i < |longer| :: longer[i].id == k {
        if k != id {
          var i :| 0 <= i < |saves| && saves[i].id == k;
          assert longer[i].id == k;
        }
      }
    }
  }

  lemma ChangeId(rows: Rows, view: View, now: nat, id: nat)
    requires Changes(rows, view, now, id)
    ensures Change(rows, view, now, id).id == id
  {
  }

  /** The first `i` saves are in, and nothing else has changed. */
  ghost predicate WrittenUpTo(rows: Rows, saves: seq<Save<nat, Record>>, i: nat, t: Rows)
    requires i <= |saves|
  {
    && (forall k | 0 <= k < i :: saves[k].id in t && t[saves[k].id] == Stored(saves[k].expected + 1, saves[k].value))
    && (forall id | id !in SavedIds(saves, i) :: SameRow(rows, t, id))
  }

  function SavedIds(saves: seq<Save<nat, Record>>, i: nat): set<nat>
    requires i <= |saves|
  {
    set k | 0 <= k < i :: saves[k].id
  }

  /** Writing all the saves reconciles the records. */
  lemma WritingReconciles(rows: Rows, view: View, now: nat, saves: seq<Save<nat, Record>>, after: Rows)
    requires SavesFor(rows, view, now, rows.Keys + view.Keys, saves)
    requires WrittenUpTo(rows, saves, |saves|, after)
    ensures Reconciliation(rows, view, now, after)
  {
    hide ViewTarget; hide Reconciled;
    forall id | id in rows || id in view || id in after ensures RowReconciled(rows, view, now, after, id) {
      if id in SavedIds(saves, |saves|) {
        var i :| 0 <= i < |saves| && saves[i].id == id;
        assert IsChange(rows, view, now, saves[i]);
      } else {
        assert SameRow(rows, after, id);
      }
    }
  }

  lemma ChunkApplies(rows: Rows, saves: seq<Save<nat, Record>>, i: nat, j: nat, t: Rows)
    requires DistinctSaves(saves) && i <= j <= |saves| && WrittenUpTo(rows, saves, i, t)
    requires forall k | 0 <= k < |saves| :: Revision(rows, saves[k].id) == saves[k].expected
    ensures ApplyBatch(t, saves[i..j], []).Ok?
    ensures WrittenUpTo(rows, saves, j, ApplyBatch(t, saves[i..j], []).value)
  {
    hide Written;
    var chunk := saves[i..j];
    forall k | 0 <= k < |chunk| ensures Revision(t, chunk[k].id) == chunk[k].expected {
      assert chunk[k] == saves[i + k];
      assert saves[i + k].id !in SavedIds(saves, i);
      assert SameRow(rows, t, saves[i + k].id);
    }
    SavesApply(t, chunk);
    var after := Written(t, chunk);
    forall k | 0 <= k < j
      ensures saves[k].id in after && after[saves[k].id] == Stored(saves[k].expected + 1, saves[k].value)
    {
      if k < i {
        forall q | 0 <= q < |chunk| ensures chunk[q].id != saves[k].id { assert chunk[q] == saves[i + q]; }
      } else {
        assert chunk[k - i] == saves[k];
      }
    }
    forall id | id !in SavedIds(saves, j) ensures SameRow(rows, after, id) {
      forall k | 0 <= k < i ensures saves[k].id != id { assert saves[k].id in SavedIds(saves, j); }
      assert id !in SavedIds(saves, i);
      forall q | 0 <= q < |chunk| ensures chunk[q].id != id {
        assert chunk[q] == saves[i + q];
        assert saves[i + q].id in SavedIds(saves, j);
      }
      assert SameRow(rows, t, id);
    }
  }

  lemma SavesCurrent(rows: Rows, view: View, now: nat, seen: set<nat>, saves: seq<Save<nat, Record>>)
    requires SavesFor(rows, view, now, seen, saves)
    ensures forall k | 0 <= k < |saves| :: Revision(rows, saves[k].id) == saves[k].expected
  {
    hide ViewTarget;
    forall k | 0 <= k < |saves| ensures Revision(rows, saves[k].id) == saves[k].expected {
      assert IsChange(rows, view, now, saves[k]);
    }
  }

  /** Walks the records of the view and the stored ones, keeping those that change. */
  method CollectChanges(rows: Rows, view: View, now: nat, ids: seq<nat>) returns (saves: seq<Save<nat, Record>>)
    requires forall i, j | 0 <= i < j < |ids| :: ids[i] != ids[j]
    requires forall id :: id in ids <==> id in rows.Keys + view.Keys
    ensures SavesFor(rows, view, now, rows.Keys + view.Keys, saves)
  {
    hide Changes; hide Change; hide SavesFor;
    saves := [];
    ghost var seen: set<nat> := {};
    NoSaves(rows, view, now);
    var i := 0;
    while i < |ids|
      invariant 0 <= i <= |ids|
      invariant forall id :: id in seen <==> id in ids[..i]
      invariant SavesFor(rows, view, now, seen, saves)
    {
      assert ids[..i + 1] == ids[..i] + [ids[i]];
      assert ids[i] !in ids[..i];
      SaveMore(rows, view, now, seen, saves, ids[i]);
      if Changes(rows, view, now, ids[i]) {
        saves := saves + [Change(rows, view, now, ids[i])];
      }
      seen := seen + {ids[i]};
      i := i + 1;
    }
    assert ids[..i] == ids;
    assert seen == rows.Keys + view.Keys;
  }

  /**
   `reconcile_transaction_records`: collects the changed records and writes them
   in chunks. When it ends, exactly the records that disagreed with the view have
   changed.
   */
  method ReconcileRecords(store: WalletStore<nat, Record>, view: View, now: nat) returns (r: Result<nat, Error>)
    modifies store
    ensures r == Err(Corrupt) <==> !Sound(old(store.table)) && |old(store.table)| <= MAX_TRACKED
    ensures r.Ok? <==> Sound(old(store.table)) && |old(store.table).Keys + view.Keys| <= MAX_TRACKED
    ensures r.Ok? ==> r.value == |view| && Reconciliation(old(store.table), view, now, store.table)
    ensures r.Err? ==> store.table == old(store.table)
  {
    hide Changes; hide Change; hide SavesFor; hide Reconciliation; hide Sound; hide WrittenUpTo; hide ApplyBatch;
    var rows := store.table;
    var all := rows.Keys + view.Keys;
    var ids := Members(all);
    if |rows| > MAX_TRACKED { NoLarger(rows.Keys, all); return Err(Capacity); }
    var sound := CheckRows(rows);
    if !sound { return Err(Corrupt); }
    if |ids| > MAX_TRACKED { return Err(Capacity); }
    var saves := CollectChanges(rows, view, now, ids);
    SavesCurrent(rows, view, now, all, saves);
    SavesDistinct(rows, view, now, all, saves);
    hide DistinctSaves;
    NothingWritten(rows, saves);
    var i := 0;
    while i < |saves|
      invariant 0 <= i <= |saves|
      invariant WrittenUpTo(rows, saves, i, store.table)
    {
      var j := if i + MAX_RECONCILIATION_SAVES < |saves| then i + MAX_RECONCILIATION_SAVES else |saves|;
      ChunkApplies(rows, saves, i, j, store.table);
      var applied := store.Apply(saves[i..j], []);
      i := j;
    }
    WritingReconciles(rows, view, now, saves, store.table);
    r := Ok(|view|);
  }

  lemma NothingWritten(rows: Rows, saves: seq<Save<nat, Record>>)
    ensures WrittenUpTo(rows, saves, 0, rows)
  {
  }

  lemma NoSaves(rows: Rows, view: View, now: nat)
    ensures SavesFor(rows, view, now, {}, [])
  {
  }

  lemma SavesDistinct(rows: Rows, view: View, now: nat, seen: set<nat>, saves: seq<Save<nat, Record>>)
    requires SavesFor(rows, view, now, seen, saves)
    ensures DistinctSaves(saves)
  {
  }

  method CheckRows(rows: Rows) returns (ok: bool)
    ensures ok <==> Sound(rows)
  {
    hide SoundRow;
    var ids := Members(rows.Keys);
    var i := 0;
    while i < |ids|
      invariant 0 <= i <= |ids|
      invariant forall k | 0 <= k < i :: SoundRow(rows, ids[k])
    {
      if !SoundRow(rows, ids[i]) { return false; }
      i := i + 1;
    }
    ok := true;
  }

  /** Reconciling again with the same view and clock finds nothing to write. */
  lemma ReconcileIsIdempotent(rows: Rows, view: View, now: nat, after: Rows, id: nat)
    requires Sound(rows) && Reconciliation(rows, view, now, after)
    ensures !Changes(after, view, now, id)
  {
    if id in rows || id in view || id in after {
      assert RowReconciled(rows, view, now, after, id);
      if id in rows { assert SoundRow(rows, id); }
    }
  }

  /** Both approvals of the run that stops abandonment passed the test of the stored records. */
  lemma UnderTestsHonest()
    ensures forall i | 0 <= i < |UNDER| :: HonestTest(Run(World(map[], map[], map[]), UNDER[..i]), UNDER[i])
  {
    UnderRun();
    var start := World(map[], map[], map[]);
    assert Run(start, []) == start;
    hide Run; hide Collects;
    NoneReserves(map[], 0);
    var paid: Rows := map[1 := Stored(2, PAID_SEEN)];
    assert |paid| == 1;
    NoneReserves(paid, 0);
    assert UNDER[..0] == [];
    forall i | 0 <= i < |UNDER| ensures HonestTest(Run(start, UNDER[..i]), UNDER[i]) {
      assert i == 0 || i == 1 || i == 2 || i == 3;
    }
  }
}
