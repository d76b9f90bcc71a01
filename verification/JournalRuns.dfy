/**
 What every run of interleaved, crashing writers keeps, and what that means for
 a writer: the journal is one linearizable log.
 */
module JournalRuns {
  import opened RecordStore
  import opened Journal

  // ---- Each transaction keeps the meaning of the rows ------------------------

  lemma AcceptableExtend(base: ChangeSet, log: seq<ChangeSet>, changeset: ChangeSet)
    requires Acceptable(base, log) && changeset != EMPTY && !Conflicts(Fold(base, log), changeset)
    ensures Acceptable(base, log + [changeset])
    ensures Fold(base, log + [changeset]) == Merge(Fold(base, log), changeset)
    ensures forall n | 0 <= n <= |log| :: (log + [changeset])[..n] == log[..n]
  {
    var longer := log + [changeset];
    assert longer[..|log|] == log;
    forall i | 0 <= i < |longer| ensures AcceptedAt(base, longer, i) {
      if i < |log| {
        assert AcceptedAt(base, log, i) && longer[..i] == log[..i];
      }
    }
  }

  /** An append succeeds only from the current head, and adds exactly its changeset to the log. */
  lemma AppendMeans(t: Rows, base: ChangeSet, log: seq<ChangeSet>, c: Cached, changeset: ChangeSet)
    requires Means(t, base, log) && CachedMeans(t, base, log, c)
    requires CheckPersist(c, changeset) == Ok(true) && AppendTxn(t, c, changeset).Ok?
    ensures c.headRevision == |log| && c.next == |log| + 1
    ensures var t' := AppendTxn(t, c, changeset).value;
            && Means(t', base, log + [changeset])
            && CachedMeans(t', base, log + [changeset], Appended(c, changeset))
            && Compacted(t') == Compacted(t) && Revision(t', SnapshotId) == Revision(t, SnapshotId)
    ensures Fold(base, log + [changeset]) == Merge(c.aggregate, changeset)
  {
    hide Conflicts; hide Merge; hide Complete;
    var t' := AppendTxn(t, c, changeset).value;
    var longer := log + [changeset];
    assert log[..|log|] == log && longer[..|longer|] == longer;
    AcceptableExtend(base, log, changeset);
    assert SnapshotMeans(t', base, longer);
    forall s: nat | DeltaId(s) in t' ensures 1 <= s <= |longer| && t'[DeltaId(s)] == Stored(1, Delta(s, longer[s - 1])) {
      assert s == |log| + 1 || DeltaId(s) in t;
    }
  }

  /** A snapshot saved at the revision a writer cached covers a prefix, and never an earlier one. */
  lemma SnapshotMeansKept(t: Rows, base: ChangeSet, log: seq<ChangeSet>, c: Cached)
    requires Means(t, base, log) && CachedMeans(t, base, log, c)
    requires Complete(c.aggregate) && c.snapshotRevision == Revision(t, SnapshotId)
    ensures var t' := t[SnapshotId := Stored(c.snapshotRevision + 1, Snapshot(STATE_FORMAT, c.next - 1, c.aggregate))];
            Means(t', base, log) && Compacted(t) <= Compacted(t') == c.headRevision
  {
  }

  lemma PruneMeans(t: Rows, base: ChangeSet, log: seq<ChangeSet>, deletes: seq<Delete<RecordId>>)
    requires Means(t, base, log) && TaskMeans(t, Pruning(deletes))
    requires ApplyBatch(t, [], deletes).Ok?
    ensures var t' := ApplyBatch(t, [], deletes).value;
            && t' == t - DeletedIds(deletes)
            && Means(t', base, log)
            && SnapshotId !in DeletedIds(deletes) && HeadId !in DeletedIds(deletes)
            && Compacted(t') == Compacted(t)
  {
    var t' := ApplyBatch(t, [], deletes).value;
    forall id | id in DeletedIds(deletes) ensures id.DeltaId? && id.sequence <= Compacted(t) {
      var j :| 0 <= j < |deletes| && deletes[j].id == id;
    }
    assert Compacted(t') == Compacted(t);
    assert forall s: nat | DeltaId(s) in t' :: DeltaId(s) in t;
  }

  /** What one writer knows survives another writer's append, snapshot or prune. */
  lemma CachedKept(t: Rows, base: ChangeSet, log: seq<ChangeSet>, c: Cached, t': Rows, log': seq<ChangeSet>)
    requires CachedMeans(t, base, log, c)
    requires log <= log'
    requires Revision(t, SnapshotId) <= Revision(t', SnapshotId)
    requires Revision(t, SnapshotId) == Revision(t', SnapshotId) ==> Compacted(t) == Compacted(t')
    ensures CachedMeans(t', base, log', c)
  {
    assert log'[..c.headRevision] == log[..c.headRevision];
  }

  /** A freshly loaded state means the whole log. */
  lemma LoadedMeans(t: Rows, base: ChangeSet, log: seq<ChangeSet>)
    requires Means(t, base, log) && LoadState(t).Ok?
    ensures CachedMeans(t, base, log, LoadState(t).value)
    ensures LoadState(t).value.headRevision == |log|
  {
    LoadRecoversFold(t, base, log);
    assert log[..|log|] == log;
  }

  lemma RedundantCompacted(t: Rows, through: nat)
    requires through <= Compacted(t)
    ensures TaskMeans(t, Pruning(Redundant(t, through)))
  {
    var stale := set s | s in DeltaSequences(t) && s <= through;
    var ids := Ascending(stale);
    var deletes := Redundant(t, through);
    forall i | 0 <= i < |deletes| ensures deletes[i].id.DeltaId? && deletes[i].id.sequence <= Compacted(t) {
      assert ids[i] in ids;
    }
  }

  // ---- Each step keeps the invariant and only extends the log ------------------

  /** The log grows, the compacted sequence never goes back, a pruned sequence is never reused. */
  ghost predicate Extends(w: World, w': World) {
    && w.log <= w'.log
    && Compacted(w.rows) <= Compacted(w'.rows)
    && Revision(w.rows, SnapshotId) <= Revision(w'.rows, SnapshotId)
    && (Revision(w.rows, SnapshotId) == Revision(w'.rows, SnapshotId) ==> Compacted(w.rows) == Compacted(w'.rows))
    && (forall s: nat {:trigger DeltaId(s)} | 1 <= s <= |w.log| && DeltaId(s) !in w.rows :: DeltaId(s) !in w'.rows)
  }

  /** A step that changes rows keeps every writer it does not run. */
  lemma OthersKept(w: World, base: ChangeSet, w': World, id: nat)
    requires Inv(w, base) && Extends(w, w')
    requires forall k | k in w'.writers && k != id :: k in w.writers && w'.writers[k] == w.writers[k]
    ensures forall k | k in w'.writers && k != id ::
              CachedMeans(w'.rows, base, w'.log, w'.writers[k].cached) && TaskMeans(w'.rows, w'.writers[k].task)
  {
    forall k | k in w'.writers && k != id
      ensures CachedMeans(w'.rows, base, w'.log, w'.writers[k].cached) && TaskMeans(w'.rows, w'.writers[k].task)
    {
      CachedKept(w.rows, base, w.log, w.writers[k].cached, w'.rows, w'.log);
    }
  }

  lemma AppendCommitted(w: World, base: ChangeSet, id: nat, changeset: ChangeSet)
    requires Inv(w, base) && id in w.writers
    requires CheckPersist(w.writers[id].cached, changeset) == Ok(true)
    requires AppendTxn(w.rows, w.writers[id].cached, changeset).Ok?
    ensures Inv(NextAppend(w, id, changeset), base) && Extends(w, NextAppend(w, id, changeset))
  {
    var c := w.writers[id].cached;
    var w' := NextAppend(w, id, changeset);
    AppendMeans(w.rows, base, w.log, c, changeset);
    hide Means; hide CachedMeans; hide CheckPersist; hide Merge;
    assert Extends(w, w');
    OthersKept(w, base, w', id);
  }

  lemma AppendStep(w: World, base: ChangeSet, id: nat, changeset: ChangeSet)
    requires Inv(w, base) && id in w.writers
    ensures Inv(NextAppend(w, id, changeset), base) && Extends(w, NextAppend(w, id, changeset))
  {
    if CheckPersist(w.writers[id].cached, changeset) == Ok(true) && AppendTxn(w.rows, w.writers[id].cached, changeset).Ok? {
      AppendCommitted(w, base, id, changeset);
    } else {
      hide Means; hide CachedMeans; hide CheckPersist; hide AppendTxn;
      OthersKept(w, base, NextAppend(w, id, changeset), id);
    }
  }

  lemma SnapshotStep(w: World, base: ChangeSet, id: nat)
    requires Inv(w, base) && id in w.writers
    ensures Inv(NextSnapshot(w, id), base) && Extends(w, NextSnapshot(w, id))
  {
    var c := w.writers[id].cached;
    var w' := NextSnapshot(w, id);
    if c.records >= COMPACTION_INTERVAL && Complete(c.aggregate) && c.snapshotRevision == Revision(w.rows, SnapshotId) {
      SnapshotMeansKept(w.rows, base, w.log, c);
    }
    OthersKept(w, base, w', id);
  }

  lemma PruneStep(w: World, base: ChangeSet, id: nat)
    requires Inv(w, base) && id in w.writers && w.writers[id].task.Pruning?
    ensures Inv(NextPrune(w, id), base) && Extends(w, NextPrune(w, id))
  {
    var deletes := w.writers[id].task.deletes;
    var w' := NextPrune(w, id);
    if ApplyBatch(w.rows, [], deletes).Ok? {
      PruneMeans(w.rows, base, w.log, deletes);
      CachedKept(w.rows, base, w.log, w.writers[id].cached, w'.rows, w.log);
    }
    OthersKept(w, base, w', id);
  }

  lemma OpenStep(w: World, base: ChangeSet, id: nat)
    requires Inv(w, base)
    ensures Inv(NextOpen(w, id), base) && Extends(w, NextOpen(w, id))
  {
    hide LoadState;
    if LoadState(w.rows).Ok? { LoadedMeans(w.rows, base, w.log); }
    OthersKept(w, base, NextOpen(w, id), id);
  }

  lemma ReloadStep(w: World, base: ChangeSet, id: nat)
    requires Inv(w, base) && id in w.writers && w.writers[id].task.Retrying?
    ensures Inv(NextReload(w, id), base) && Extends(w, NextReload(w, id))
  {
    hide LoadState;
    if LoadState(w.rows).Ok? { LoadedMeans(w.rows, base, w.log); }
    OthersKept(w, base, NextReload(w, id), id);
  }

  lemma ListStep(w: World, base: ChangeSet, id: nat)
    requires Inv(w, base) && id in w.writers && w.writers[id].task.Listing_?
    ensures Inv(NextList(w, id), base) && Extends(w, NextList(w, id))
  {
    hide Redundant; hide TooManyRows; hide Means; hide CachedMeans;
    RedundantCompacted(w.rows, w.writers[id].task.through);
    OthersKept(w, base, NextList(w, id), id);
  }

  lemma StepKeeps(w: World, base: ChangeSet, a: Action)
    requires Inv(w, base)
    ensures Inv(Next(w, a), base) && Extends(w, Next(w, a))
  {
    hide NextOpen; hide NextReload; hide NextAppend; hide NextSnapshot; hide NextPrune; hide NextList;
    match a
    case Open(id) => OpenStep(w, base, id);
    case Append(id, changeset) =>
      if id in w.writers { AppendStep(w, base, id, changeset); }
    case SaveSnapshot(id) =>
      if id in w.writers { SnapshotStep(w, base, id); }
    case ListRedundant(id) =>
      if id in w.writers && w.writers[id].task.Listing_? { ListStep(w, base, id); }
    case Prune(id) =>
      if id in w.writers && w.writers[id].task.Pruning? { PruneStep(w, base, id); }
    case Reload(id) =>
      if id in w.writers && w.writers[id].task.Retrying? { ReloadStep(w, base, id); }
    case Crash(id) =>
      OthersKept(w, base, Next(w, a), id);
  }

  // ---- Whole runs ---------------------------------------------------------------

  lemma {:induction false} RunKeeps(w: World, base: ChangeSet, actions: seq<Action>)
    requires Inv(w, base)
    ensures Inv(Run(w, actions), base) && Extends(w, Run(w, actions))
    decreases |actions|
  {
    if actions != [] {
      var shorter := Run(w, actions[..|actions| - 1]);
      RunKeeps(w, base, actions[..|actions| - 1]);
      StepKeeps(shorter, base, actions[|actions| - 1]);
    }
  }

  lemma InitialInv(w: World, base: ChangeSet)
    requires Initial(w, base)
    ensures Inv(w, base)
  {
    assert w.log[..0] == [];
  }

  /**
   Crash recovery over whole runs: from a new or legacy account, after any
   interleaving of writers with crashes between any two durable writes, loading
   returns the left fold of every committed changeset, and fails exactly when
   more than 4096 deltas are stored or an existing account never named both
   descriptors and its network.
   */
  lemma CrashRecovery(start: World, base: ChangeSet, actions: seq<Action>)
    requires Initial(start, base)
    ensures var w := Run(start, actions);
            && (LoadState(w.rows).Ok? <==>
                  |DeltaSequences(w.rows)| <= MAX_RECORDS
                  && ((w.log == [] && base == EMPTY) || Complete(Fold(base, w.log))))
            && (LoadState(w.rows).Ok? ==>
                  LoadState(w.rows).value.aggregate == Fold(base, w.log)
                  && LoadState(w.rows).value.next == |w.log| + 1)
  {
    InitialInv(start, base);
    RunKeeps(start, base, actions);
    LoadRecoversFold(Run(start, actions).rows, base, Run(start, actions).log);
  }

  datatype Field = Descriptor | ChangeDescriptor | Network

  function Get(c: ChangeSet, field: Field): Option<int> {
    match field
    case Descriptor => c.descriptor
    case ChangeDescriptor => c.changeDescriptor
    case Network => c.network
  }

  ghost predicate Names(base: ChangeSet, log: seq<ChangeSet>, field: Field) {
    Get(base, field).Some? || exists i | 0 <= i < |log| :: Get(log[i], field).Some?
  }

  lemma {:induction false} FieldNamed(base: ChangeSet, log: seq<ChangeSet>, field: Field)
    ensures Get(Fold(base, log), field).Some? <==> Names(base, log, field)
    decreases |log|
  {
    if log != [] {
      var shorter, last := log[..|log| - 1], log[|log| - 1];
      FieldNamed(base, shorter, field);
      assert Get(Fold(base, log), field) == Later(Get(Fold(base, shorter), field), Get(last, field));
      if Names(base, log, field) && Get(last, field).None? && Get(base, field).None? {
        var i :| 0 <= i < |log| && Get(log[i], field).Some?;
        assert shorter[i] == log[i];
      }
    }
  }

  /** The loadable journals are those in which every immutable field was named by someone. */
  lemma CompleteWhenNamed(base: ChangeSet, log: seq<ChangeSet>)
    ensures Complete(Fold(base, log)) <==>
            Names(base, log, Descriptor) && Names(base, log, ChangeDescriptor) && Names(base, log, Network)
  {
    FieldNamed(base, log, Descriptor);
    FieldNamed(base, log, ChangeDescriptor);
    FieldNamed(base, log, Network);
  }

  /** The first two steps of a new account: it opens empty and appends whatever it is given. */
  lemma FirstPersist(changeset: ChangeSet)
    requires changeset != EMPTY
    ensures var start := World(map[], map[], []);
            && Initial(start, EMPTY)
            && Run(start, [Open(0), Append(0, changeset)]).log == [changeset]
  {
    var start := World(map[], map[], []);
    InitialInv(start, EMPTY);
    assert DeltaSequences(start.rows) == {};
    LoadRecoversFold(start.rows, EMPTY, []);
    hide LoadState;
    var two := [Open(0), Append(0, changeset)];
    assert two[..1] == [Open(0)] && [Open(0)][..0] == [];
    assert Run(start, [Open(0)]) == NextOpen(start, 0);
    assert Run(start, two) == Next(NextOpen(start, 0), Append(0, changeset));
    assert NextAppend(NextOpen(start, 0), 0, changeset).log == [changeset];
  }

  /** One `persist` of a changeset without descriptors makes a new account unloadable. */
  lemma NamelessFirstChangesetIsFatal(changeset: ChangeSet)
    requires changeset != EMPTY && !Complete(changeset)
    ensures var start := World(map[], map[], []);
            Initial(start, EMPTY) && LoadState(Run(start, [Open(0), Append(0, changeset)]).rows).Err?
  {
    var start := World(map[], map[], []);
    FirstPersist(changeset);
    CrashRecovery(start, EMPTY, [Open(0), Append(0, changeset)]);
    hide LoadState; hide Run;
    assert [changeset][..0] == [];
    assert Fold(EMPTY, [changeset]) == Merge(EMPTY, changeset);
  }

  /**
   The head revision determines the log: a writer whose cached head revision is
   the stored one holds the durable aggregate, and only such a writer can append.
   */
  lemma CurrentHeadIsCurrentState(w: World, base: ChangeSet, id: nat, changeset: ChangeSet)
    requires Inv(w, base) && id in w.writers && w.writers[id].task.Idle?
    ensures Revision(w.rows, HeadId) == |w.log|
    ensures w.writers[id].cached.headRevision == Revision(w.rows, HeadId) ==>
              w.writers[id].cached.aggregate == Fold(base, w.log)
    ensures var w' := Next(w, Append(id, changeset));
            w'.log != w.log ==>
              && w.writers[id].cached.headRevision == Revision(w.rows, HeadId)
              && w'.log == w.log + [changeset]
              && w'.writers[id].cached.aggregate == Fold(base, w'.log)
  {
    assert w.log[..|w.log|] == w.log;
    var c := w.writers[id].cached;
    if CheckPersist(c, changeset) == Ok(true) && AppendTxn(w.rows, c, changeset).Ok? {
      AppendMeans(w.rows, base, w.log, c, changeset);
      assert (w.log + [changeset])[..|w.log|] == w.log;
    }
  }

  /** Of two writers with one head, at most one appends, in whichever order and whatever happens between. */
  lemma OneWriterWins(w: World, base: ChangeSet, a: nat, b: nat, x: ChangeSet, y: ChangeSet, between: seq<Action>)
    requires Inv(w, base) && a in w.writers && b in w.writers && a != b
    requires w.writers[a].task.Idle?
    requires w.writers[a].cached.headRevision == w.writers[b].cached.headRevision
    requires Next(w, Append(a, x)).log != w.log
    ensures var w' := Run(Next(w, Append(a, x)), between);
            b in w'.writers && w'.writers[b] == w.writers[b] ==>
              Next(w', Append(b, y)).log == w'.log
  {
    CurrentHeadIsCurrentState(w, base, a, x);
    StepKeeps(w, base, Append(a, x));
    var w1 := Next(w, Append(a, x));
    RunKeeps(w1, base, between);
    var w' := Run(w1, between);
    if b in w'.writers && w'.writers[b] == w.writers[b] && w'.writers[b].task.Idle? {
      CurrentHeadIsCurrentState(w', base, b, y);
    }
  }

  /** An accepted exact retry appends nothing and ends with the durable aggregate, which holds its changeset. */
  lemma RetryIsANoOp(w: World, base: ChangeSet, id: nat)
    requires Inv(w, base) && id in w.writers && w.writers[id].task.Retrying?
    ensures var w' := Next(w, Reload(id));
            && w'.log == w.log && w'.rows == w.rows
            && (w'.writers[id].cached != w.writers[id].cached ==>
                  && w'.writers[id].cached.aggregate == w.writers[id].task.candidate == Fold(base, w.log)
                  && w'.writers[id].cached.headRevision == |w.log|)
  {
    hide LoadState;
    LoadRecoversFold(w.rows, base, w.log);
  }

  /** Descriptors and network never change once named, over any run. */
  lemma ImmutableFieldsNeverChange(w: World, base: ChangeSet, actions: seq<Action>)
    requires Inv(w, base)
    ensures var a, b := Fold(base, w.log), Fold(base, Run(w, actions).log);
            && (a.descriptor.Some? ==> b.descriptor == a.descriptor)
            && (a.changeDescriptor.Some? ==> b.changeDescriptor == a.changeDescriptor)
            && (a.network.Some? ==> b.network == a.network)
  {
    RunKeeps(w, base, actions);
    var w' := Run(w, actions);
    assert w'.log[..|w.log|] == w.log;
    FieldsKept(base, w'.log, |w.log|);
  }
}
