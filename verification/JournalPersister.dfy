/**
 The persister object: the loops and writes of one `persist` call, step by step
 over the shared store, proved against the transactions that the interleaved
 runs are made of.
 */
module JournalPersister {
  import opened RecordStore
  import opened Journal
  import opened JournalRuns

  /** The rows, the cached state and the result that a call leaves. */
  datatype Outcome = Outcome(rows: Rows, cached: Cached, result: Result<(), Error>)

  function SnapshotOf(c: Cached): Record
    requires c.next > 0
  {
    Snapshot(STATE_FORMAT, c.next - 1, c.aggregate)
  }

  function AfterSnapshot(c: Cached): Cached {
    c.(snapshotRevision := c.snapshotRevision + 1, records := 0)
  }

  function Pruned(t: Rows, c: Cached, through: nat): Outcome {
    if TooManyRows(t) then Outcome(t, c, Err(Store(ListCapacity)))
    else match ApplyBatch(t, [], Redundant(t, through))
         case Ok(rows) => Outcome(rows, c, Ok(()))
         case Err(e) => Outcome(t, c, Err(Store(e)))
  }

  function Compaction(t: Rows, c: Cached): Outcome {
    if c.records < COMPACTION_INTERVAL then Outcome(t, c, Ok(()))
    else if c.next == 0 then Outcome(t, c, Err(SequenceOverflow))
    else if !Complete(c.aggregate) then Outcome(t, c, Err(Corrupt))
    else match SaveEntity(t, SnapshotId, c.snapshotRevision, SnapshotOf(c))
         case Err(e) => Outcome(t, c, Err(Store(e)))
         case Ok(rows) => Pruned(rows, AfterSnapshot(c), c.next - 1)
  }

  function ExactRetry(t: Rows, c: Cached, changeset: ChangeSet): Outcome {
    if !c.persisted then Outcome(t, c, Err(AlreadyExists))
    else if DeltaId(c.next) !in t then Outcome(t, c, Err(Store(StaleRevision)))
    else if !ExactRecord(t, c.next, changeset) then
      var v := t[DeltaId(c.next)].value;
      Outcome(t, c, Err(if v.Snapshot? || (v.Head? && v.next == 0) || (v.Delta? && (v.sequence == 0 || v.changeset == EMPTY))
                        then Corrupt else Store(StaleRevision)))
    else match LoadState(t)
         case Err(e) => Outcome(t, c, Err(e))
         case Ok(loaded) =>
           if loaded.aggregate == Merge(c.aggregate, changeset) then Outcome(t, loaded, Ok(()))
           else Outcome(t, c, Err(Store(StaleRevision)))
  }

  function Persisted(t: Rows, c: Cached, changeset: ChangeSet): Outcome {
    match CheckPersist(c, changeset)
    case Err(e) => Outcome(t, c, Err(e))
    case Ok(false) => Outcome(t, c, Ok(()))
    case Ok(true) =>
      match AppendTxn(t, c, changeset)
      case Ok(rows) => Compaction(rows, Appended(c, changeset))
      case Err(_) => ExactRetry(t, c, changeset)
  }

  class Persister {
    const store: WalletStore<RecordId, Record>
    var state: Option<Cached>

    constructor (shared: WalletStore<RecordId, Record>)
      ensures store == shared && state == None
    {
      store := shared;
      state := None;
    }

    /** The replay loop of `load_state`. */
    static method ReplayRows(compacted: nat, start: Replayed, rows: seq<Row>) returns (r: Result<Replayed, Error>)
      ensures r == Replay(compacted, start, rows)
    {
      var acc := start;
      var i := 0;
      while i < |rows|
        invariant 0 <= i <= |rows|
        invariant Replay(compacted, acc, rows[i..]) == Replay(compacted, start, rows)
      {
        assert rows[i..][0] == rows[i] && rows[i..][1..] == rows[i + 1..];
        var step := ReplayRow(compacted, acc, rows[i]);
        if step.Err? {
          return Err(step.error);
        }
        acc := step.value;
        i := i + 1;
      }
      r := Ok(acc);
    }

    method Load() returns (r: Result<Cached, Error>)
      ensures r == LoadState(store.table)
    {
      var rows := Listing(store.table);
      var snapshot := LoadSnapshot(store.table);
      if |rows| > MAX_RECORDS + 2 {
        r := Err(Store(ListCapacity));
      } else if snapshot.Err? {
        r := Err(snapshot.error);
      } else if |rows| > MAX_RECORDS + 1 {
        r := Err(Corrupt);
      } else {
        var start := snapshot.value;
        var acc := Replayed(start.changeset, Saturating(start.compacted), 0, 0, NotSeen);
        var replayed := ReplayRows(start.compacted, acc, rows);
        r := if replayed.Ok? then FinishLoad(start, replayed.value) else Err(replayed.error);
      }
    }

    method Initialize() returns (r: Result<ChangeSet, Error>)
      modifies this
      ensures match LoadState(store.table)
              case Ok(c) => state == Some(c) && r == Ok(c.aggregate)
              case Err(e) => state == None && r == Err(e)
    {
      state := None;
      var loaded := Load();
      match loaded
      case Ok(c) => state := Some(c); r := Ok(c.aggregate);
      case Err(e) => r := Err(e);
    }

    method AcceptExactRetry(changeset: ChangeSet) returns (r: Result<(), Error>)
      requires state.Some?
      modifies this
      ensures var o := ExactRetry(store.table, old(state.value), changeset);
              state == Some(o.cached) && r == o.result
    {
      var c := state.value;
      if !c.persisted {
        return Err(AlreadyExists);
      }
      if DeltaId(c.next) !in store.table {
        return Err(Store(StaleRevision));
      }
      var stored := store.table[DeltaId(c.next)].value;
      match stored {
        case Snapshot(_, _, _) => return Err(Corrupt);
        case Head(next) =>
          if next == 0 { return Err(Corrupt); }
        case Delta(sequence, saved) =>
          if sequence == 0 || saved == EMPTY { return Err(Corrupt); }
      }
      if stored != Delta(c.next, changeset) {
        return Err(Store(StaleRevision));
      }
      var loaded := Load();
      if loaded.Err? {
        return Err(loaded.error);
      }
      if loaded.value.aggregate != Merge(c.aggregate, changeset) {
        return Err(Store(StaleRevision));
      }
      state := Some(loaded.value);
      r := Ok(());
    }

    method Compact() returns (r: Result<(), Error>)
      requires state.Some?
      modifies this, store
      ensures var o := Compaction(old(store.table), old(state.value));
              store.table == o.rows && state == Some(o.cached) && r == o.result
    {
      var c := state.value;
      if c.records < COMPACTION_INTERVAL {
        return Ok(());
      }
      if c.next == 0 {
        return Err(SequenceOverflow);
      }
      if !Complete(c.aggregate) {
        return Err(Corrupt);
      }
      var saved := store.SaveOne(SnapshotId, c.snapshotRevision, SnapshotOf(c));
      if saved.Err? {
        return Err(Store(saved.error));
      }
      state := Some(AfterSnapshot(c));
      if TooManyRows(store.table) {
        return Err(Store(ListCapacity));
      }
      var pruned := store.Apply([], Redundant(store.table, c.next - 1));
      r := if pruned.Ok? then Ok(()) else Err(Store(pruned.error));
    }

    method Persist(changeset: ChangeSet) returns (r: Result<(), Error>)
      modifies this, store
      ensures old(state).None? ==> r == Err(Uninitialized) && state == None && store.table == old(store.table)
      ensures old(state).Some? ==>
                var o := Persisted(old(store.table), old(state.value), changeset);
                store.table == o.rows && state == Some(o.cached) && r == o.result
    {
      if state.None? {
        return Err(Uninitialized);
      }
      var c := state.value;
      var checked := CheckPersist(c, changeset);
      if checked.Err? {
        return Err(checked.error);
      }
      if !checked.value {
        return Ok(());
      }
      AppendIsBatch(store.table, c, changeset);
      var saved := store.Apply(AppendBatch(c, changeset), []);
      if saved.Ok? {
        state := Some(Appended(c, changeset));
        r := Compact();
      } else {
        r := AcceptExactRetry(changeset);
      }
    }
  }

  // ---- A call is a run of its transactions -----------------------------------

  function Calls(id: nat, changeset: ChangeSet): seq<Action> {
    [Append(id, changeset), SaveSnapshot(id), ListRedundant(id), Prune(id), Reload(id)]
  }

  lemma RunFive(w: World, a: Action, b: Action, c: Action, d: Action, e: Action)
    ensures Run(w, [a, b, c, d, e]) == Next(Next(Next(Next(Next(w, a), b), c), d), e)
  {
    hide Next;
    assert [a, b, c, d, e][..4] == [a, b, c, d] && [a, b, c, d][..3] == [a, b, c];
    assert [a, b, c][..2] == [a, b] && [a, b][..1] == [a] && [a][..0] == [];
    assert Run(w, [a]) == Next(w, a);
    assert Run(w, [a, b]) == Next(Run(w, [a]), b);
    assert Run(w, [a, b, c]) == Next(Run(w, [a, b]), c);
  }

  lemma CompactionIsARun(w: World, id: nat)
    requires id in w.writers && w.writers[id].task.Compacting?
    ensures var o := Compaction(w.rows, w.writers[id].cached);
            var w' := Next(Next(Next(Next(w, SaveSnapshot(id)), ListRedundant(id)), Prune(id)), Reload(id));
            w' == World(o.rows, w.writers[id := Writer(o.cached, Idle)], w.log)
  {
    hide Redundant; hide TooManyRows; hide NextReload; hide ApplyBatch;
    var c := w.writers[id].cached;
    var w1 := Next(w, SaveSnapshot(id));
    if w1.writers[id].task.Listing_? {
      var w2 := Next(w1, ListRedundant(id));
      var w3 := Next(w2, Prune(id));
      assert w3.writers == w.writers[id := Writer(AfterSnapshot(c), Idle)];
    } else {
      assert w1.writers == w.writers[id := Writer(c, Idle)];
    }
  }

  lemma NothingToCompact(w: World, id: nat)
    requires id in w.writers && (w.writers[id].task.Idle? || w.writers[id].task.Retrying?)
    ensures Next(Next(Next(w, SaveSnapshot(id)), ListRedundant(id)), Prune(id)) == w
  {
  }

  lemma RetryIsARun(w: World, id: nat, changeset: ChangeSet)
    requires id in w.writers && w.writers[id].task.Idle?
    requires CheckPersist(w.writers[id].cached, changeset) == Ok(true)
    requires AppendTxn(w.rows, w.writers[id].cached, changeset).Err?
    ensures var o := ExactRetry(w.rows, w.writers[id].cached, changeset);
            o.rows == w.rows
            && Next(NextAppend(w, id, changeset), Reload(id)) == w.(writers := w.writers[id := Writer(o.cached, Idle)])
  {
    hide LoadState; hide AppendTxn; hide CheckPersist;
    var c := w.writers[id].cached;
    assert w.writers[id := Writer(c, Idle)] == w.writers;
    if c.persisted && ExactRecord(w.rows, c.next, changeset) {
      var w1 := NextAppend(w, id, changeset);
      assert w1.writers[id := Writer(c, Idle)] == w.writers;
      if LoadState(w.rows).Ok? {
        var loaded := LoadState(w.rows).value;
        assert w1.writers[id := Writer(loaded, Idle)] == w.writers[id := Writer(loaded, Idle)];
      }
    }
  }

  /**
   One undisturbed `persist` call is a run of the interleaved machine, so every
   theorem about runs holds of the object's method.
   */
  lemma PersistIsARun(w: World, id: nat, changeset: ChangeSet)
    requires id in w.writers && w.writers[id].task.Idle?
    ensures var o := Persisted(w.rows, w.writers[id].cached, changeset);
            Run(w, Calls(id, changeset)) ==
            World(o.rows, w.writers[id := Writer(o.cached, Idle)], NextAppend(w, id, changeset).log)
  {
    RunFive(w, Append(id, changeset), SaveSnapshot(id), ListRedundant(id), Prune(id), Reload(id));
    hide Run; hide Compaction; hide ExactRetry;
    var c := w.writers[id].cached;
    var w1 := NextAppend(w, id, changeset);
    assert w1 == Next(w, Append(id, changeset));
    if CheckPersist(c, changeset) != Ok(true) {
      assert w.writers[id := Writer(c, Idle)] == w.writers;
      NothingToCompact(w, id);
    } else if AppendTxn(w.rows, c, changeset).Ok? {
      CompactionIsARun(w1, id);
      var o := Persisted(w.rows, c, changeset);
      assert w1.writers[id := Writer(o.cached, Idle)] == w.writers[id := Writer(o.cached, Idle)];
    } else {
      NothingToCompact(w1, id);
      RetryIsARun(w, id, changeset);
    }
  }

  lemma CompactionKeepsAggregate(t: Rows, c: Cached)
    ensures Compaction(t, c).cached.aggregate == c.aggregate
    ensures Compaction(t, c).cached.headRevision == c.headRevision
  {
  }

  /** A `persist` that returns success holds its changeset, and what it holds is the durable aggregate. */
  lemma PersistSucceeds(w: World, base: ChangeSet, id: nat, changeset: ChangeSet)
    requires Inv(w, base) && id in w.writers && w.writers[id].task.Idle?
    requires Persisted(w.rows, w.writers[id].cached, changeset).result.Ok?
    ensures var o := Persisted(w.rows, w.writers[id].cached, changeset);
            var log := NextAppend(w, id, changeset).log;
            && o.cached.aggregate == Merge(w.writers[id].cached.aggregate, changeset)
            && (o.cached != w.writers[id].cached ==>
                  o.cached.aggregate == Fold(base, log) && o.cached.headRevision == |log|)
  {
    hide Means; hide Compaction; hide LoadState; hide Conflicts;
    var c := w.writers[id].cached;
    if CheckPersist(c, changeset) == Ok(true) {
      if AppendTxn(w.rows, c, changeset).Ok? {
        AppendMeans(w.rows, base, w.log, c, changeset);
        CompactionKeepsAggregate(AppendTxn(w.rows, c, changeset).value, Appended(c, changeset));
      } else {
        LoadRecoversFold(w.rows, base, w.log);
      }
    }
  }
}
