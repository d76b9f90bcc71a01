/**
 The BDK changeset journal: a snapshot, a sequence of deltas and a head record
 over the compare-and-swap store, written by several writers that may crash
 between any two durable writes.
 */
module Journal {
  import opened RecordStore

  const STATE_FORMAT: nat := 2
  const LEGACY_STATE_FORMAT: nat := 1
  const COMPACTION_INTERVAL: nat := 32
  const MAX_RECORDS: nat := 4096

  /** Three immutable wallet fields and the mergeable rest. */
  datatype ChangeSet = ChangeSet(
    descriptor: Option<int>, changeDescriptor: Option<int>, network: Option<int>, entries: map<int, int>)

  const EMPTY: ChangeSet := ChangeSet(None, None, None, map[])

  function Later(current: Option<int>, next: Option<int>): Option<int> {
    if next.Some? then next else current
  }

  function Merge(a: ChangeSet, c: ChangeSet): ChangeSet {
    ChangeSet(Later(a.descriptor, c.descriptor), Later(a.changeDescriptor, c.changeDescriptor),
              Later(a.network, c.network), a.entries + c.entries)
  }

  predicate Complete(c: ChangeSet) {
    c.descriptor.Some? && c.changeDescriptor.Some? && c.network.Some?
  }

  predicate Differ(next: Option<int>, current: Option<int>) {
    next.Some? && current.Some? && next.value != current.value
  }

  /** `reject_immutable_changes` refuses exactly these. */
  predicate Conflicts(a: ChangeSet, c: ChangeSet) {
    || Differ(c.descriptor, a.descriptor)
    || Differ(c.changeDescriptor, a.changeDescriptor)
    || Differ(c.network, a.network)
  }

  datatype RecordId = SnapshotId | HeadId | DeltaId(sequence: nat)

  datatype Record =
    | Snapshot(format: nat, compacted: nat, changeset: ChangeSet)
    | Head(next: nat)
    | Delta(sequence: nat, changeset: ChangeSet)

  type Rows = Table<RecordId, Record>

  datatype Error =
    | Corrupt | Unsupported | StateConflict | AlreadyExists | Uninitialized | SequenceOverflow
    | Store(error: StoreError)

  datatype Cached = Cached(
    snapshotRevision: nat, headRevision: nat, next: nat, records: nat, persisted: bool, aggregate: ChangeSet)

  // ---- Loading -----------------------------------------------------------

  datatype HeadSeen = NotSeen | Seen(revision: nat, next: nat)

  datatype Replayed = Replayed(
    aggregate: ChangeSet, expected: nat, active: nat, total: nat, head: HeadSeen)

  datatype Row = Row(id: RecordId, revision: nat, value: Record)

  function DeltaSequences(t: Rows): set<nat> {
    set id | id in t && id.DeltaId? :: id.sequence
  }

  function RowAt(t: Rows, id: RecordId): Row
    requires id in t
  {
    Row(id, t[id].revision, t[id].value)
  }

  /** The journal rows in id order: the head first, then the deltas by sequence. */
  function Listing(t: Rows): (rows: seq<Row>)
  {
    var ids := Ascending(DeltaSequences(t));
    (if HeadId in t then [RowAt(t, HeadId)] else []) +
    seq(|ids|, i requires 0 <= i < |ids| => assert ids[i] in ids; RowAt(t, DeltaId(ids[i])))
  }

  /** More rows than a bounded listing returns: it is refused. */
  predicate TooManyRows(t: Rows) {
    |Listing(t)| > MAX_RECORDS + 2
  }

  /** One iteration of the replay loop of `load_state`. */
  function ReplayRow(compacted: nat, acc: Replayed, row: Row): Result<Replayed, Error> {
    match row.value
    case Snapshot(_, _, _) => Err(Corrupt)
    case Head(next) =>
      if next == 0 || row.id != HeadId || acc.head.Seen? then Err(Corrupt)
      else Ok(acc.(head := Seen(row.revision, next)))
    case Delta(sequence, changeset) =>
      if sequence == 0 || changeset == EMPTY then Err(Corrupt)
      else if acc.total + 1 > MAX_RECORDS || row.id != DeltaId(sequence) then Err(Corrupt)
      else if sequence <= compacted then Ok(acc.(total := acc.total + 1))
      else if sequence != acc.expected then Err(Corrupt)
      else if Conflicts(acc.aggregate, changeset) then Err(StateConflict)
      else if acc.expected >= U64_MAX then Err(SequenceOverflow)
      else Ok(Replayed(Merge(acc.aggregate, changeset), acc.expected + 1, acc.active + 1, acc.total + 1, acc.head))
  }

  function Replay(compacted: nat, acc: Replayed, rows: seq<Row>): Result<Replayed, Error>
    decreases |rows|
  {
    if rows == [] then Ok(acc)
    else match ReplayRow(compacted, acc, rows[0])
         case Ok(next) => Replay(compacted, next, rows[1..])
         case Err(e) => Err(e)
  }

  function ValidateSnapshot(s: Record): Result<(), Error>
    requires s.Snapshot?
  {
    if (s.format != LEGACY_STATE_FORMAT && s.format != STATE_FORMAT)
       || (s.format == LEGACY_STATE_FORMAT && s.compacted != 0) then Err(Unsupported)
    else if !Complete(s.changeset) then Err(Corrupt)
    else Ok(())
  }

  /** Where replay starts: the snapshot, or nothing. */
  datatype Start = Start(revision: nat, compacted: nat, changeset: ChangeSet, present: bool)

  function LoadSnapshot(t: Rows): Result<Start, Error> {
    if SnapshotId !in t then Ok(Start(0, 0, EMPTY, false))
    else if !t[SnapshotId].value.Snapshot? then Err(Corrupt)
    else match ValidateSnapshot(t[SnapshotId].value)
         case Err(e) => Err(e)
         case Ok(_) => var s := t[SnapshotId].value; Ok(Start(t[SnapshotId].revision, s.compacted, s.changeset, true))
  }

  function Saturating(n: nat): nat {
    if n >= U64_MAX then U64_MAX else n + 1
  }

  /** The checks of `load_state` after the replay loop. */
  function FinishLoad(start: Start, acc: Replayed): Result<Cached, Error> {
    if acc.head.Seen? && acc.head.next != acc.expected then Err(Corrupt)
    else if acc.head.NotSeen? && !(acc.total == 0 && start.compacted == 0) then Err(Corrupt)
    else
      var persisted := start.present || acc.head.Seen?;
      if persisted && !Complete(acc.aggregate) then Err(Corrupt)
      else Ok(Cached(start.revision, if acc.head.Seen? then acc.head.revision else 0,
                     acc.expected, acc.active, persisted, acc.aggregate))
  }

  function LoadRows(t: Rows, rows: seq<Row>): Result<Cached, Error> {
    if |rows| > MAX_RECORDS + 2 then Err(Store(ListCapacity))
    else match LoadSnapshot(t)
         case Err(e) => Err(e)
         case Ok(start) =>
           if |rows| > MAX_RECORDS + 1 then Err(Corrupt)
           else match Replay(start.compacted, Replayed(start.changeset, Saturating(start.compacted), 0, 0, NotSeen), rows)
                case Err(e) => Err(e)
                case Ok(acc) => FinishLoad(start, acc)
  }

  function LoadState(t: Rows): Result<Cached, Error> {
    LoadRows(t, Listing(t))
  }

  // ---- The durable transactions of a writer --------------------------------

  function AppendBatch(c: Cached, changeset: ChangeSet): seq<Save<RecordId, Record>> {
    [Save(HeadId, c.headRevision, Head(c.next + 1)), Save(DeltaId(c.next), 0, Delta(c.next, changeset))]
  }

  /** The append transaction written out; `AppendIsBatch` ties it to the store's batch. */
  function AppendTxn(t: Rows, c: Cached, changeset: ChangeSet): Result<Rows, StoreError> {
    if Revision(t, HeadId) != c.headRevision || Revision(t, DeltaId(c.next)) != 0 then Err(StaleRevision)
    else Ok(t[HeadId := Stored(c.headRevision + 1, Head(c.next + 1))][DeltaId(c.next) := Stored(1, Delta(c.next, changeset))])
  }

  lemma AppendIsBatch(t: Rows, c: Cached, changeset: ChangeSet)
    ensures ApplyBatch(t, AppendBatch(c, changeset), []) == AppendTxn(t, c, changeset)
  {
    TwoSaves(t, AppendBatch(c, changeset)[0], AppendBatch(c, changeset)[1]);
  }

  function Redundant(t: Rows, through: nat): seq<Delete<RecordId>> {
    var ids := Ascending(set s | s in DeltaSequences(t) && s <= through);
    seq(|ids|, i requires 0 <= i < |ids| => assert ids[i] in ids; Delete(DeltaId(ids[i]), t[DeltaId(ids[i])].revision))
  }

  function Appended(c: Cached, changeset: ChangeSet): Cached {
    Cached(c.snapshotRevision, c.headRevision + 1, c.next + 1, c.records + 1, true, Merge(c.aggregate, changeset))
  }

  /** The checks of `persist` before its first write; `None` means there is nothing to write. */
  function CheckPersist(c: Cached, changeset: ChangeSet): Result<bool, Error> {
    if Conflicts(c.aggregate, changeset) then Err(StateConflict)
    else if Merge(c.aggregate, changeset) == c.aggregate then Ok(false)
    else if c.next == 0 || changeset == EMPTY then Err(Corrupt)
    else if c.next >= U64_MAX then Err(SequenceOverflow)
    else Ok(true)
  }

  /** The record that `accept_exact_retry` must find before it reloads. */
  predicate ExactRecord(t: Rows, sequence: nat, changeset: ChangeSet) {
    DeltaId(sequence) in t && t[DeltaId(sequence)].value == Delta(sequence, changeset)
    && sequence != 0 && changeset != EMPTY
  }

  // ---- Writers interleaved at every transaction, with crashes ----------------

  datatype Task =
    | Idle
    | Compacting                                // appended, snapshot not yet saved
    | Listing_(through: nat)                    // snapshot saved, redundant deltas not yet listed
    | Pruning(deletes: seq<Delete<RecordId>>)   // listed, not yet deleted
    | Retrying(candidate: ChangeSet)            // exact record found, state not yet reloaded

  datatype Writer = Writer(cached: Cached, task: Task)

  datatype Action =
    | Open(id: nat)
    | Append(id: nat, changeset: ChangeSet)
    | SaveSnapshot(id: nat)
    | ListRedundant(id: nat)
    | Prune(id: nat)
    | Reload(id: nat)
    | Crash(id: nat)

  /** `log` is the history of committed changesets: entry i has sequence i + 1. */
  datatype World = World(rows: Rows, writers: map<nat, Writer>, log: seq<ChangeSet>)

  function WithTask(w: World, id: nat, task: Task): World
    requires id in w.writers
  {
    w.(writers := w.writers[id := w.writers[id].(task := task)])
  }

  function NextAppend(w: World, id: nat, changeset: ChangeSet): World
    requires id in w.writers
  {
    var c := w.writers[id].cached;
    if CheckPersist(c, changeset) != Ok(true) then w
    else match AppendTxn(w.rows, c, changeset)
         case Ok(rows) =>
           World(rows, w.writers[id := Writer(Appended(c, changeset), Compacting)], w.log + [changeset])
         case Err(_) =>
           if c.persisted && ExactRecord(w.rows, c.next, changeset)
           then WithTask(w, id, Retrying(Merge(c.aggregate, changeset)))
           else w
  }

  function NextSnapshot(w: World, id: nat): World
    requires id in w.writers
  {
    var c := w.writers[id].cached;
    if c.records < COMPACTION_INTERVAL || c.next == 0 || !Complete(c.aggregate) then WithTask(w, id, Idle)
    else match SaveEntity(w.rows, SnapshotId, c.snapshotRevision, Snapshot(STATE_FORMAT, c.next - 1, c.aggregate))
         case Err(_) => WithTask(w, id, Idle)
         case Ok(rows) =>
           World(rows,
                 w.writers[id := Writer(c.(snapshotRevision := c.snapshotRevision + 1, records := 0), Listing_(c.next - 1))],
                 w.log)
  }

  function NextOpen(w: World, id: nat): World {
    match LoadState(w.rows)
    case Ok(c) => w.(writers := w.writers[id := Writer(c, Idle)])
    case Err(_) => w.(writers := w.writers - {id})
  }

  function NextReload(w: World, id: nat): World
    requires id in w.writers && w.writers[id].task.Retrying?
  {
    match LoadState(w.rows)
    case Ok(c) => if c.aggregate == w.writers[id].task.candidate
                  then w.(writers := w.writers[id := Writer(c, Idle)])
                  else WithTask(w, id, Idle)
    case Err(_) => WithTask(w, id, Idle)
  }

  function NextList(w: World, id: nat): World
    requires id in w.writers && w.writers[id].task.Listing_?
  {
    if TooManyRows(w.rows) then WithTask(w, id, Idle)
    else WithTask(w, id, Pruning(Redundant(w.rows, w.writers[id].task.through)))
  }

  function NextPrune(w: World, id: nat): World
    requires id in w.writers && w.writers[id].task.Pruning?
  {
    match ApplyBatch(w.rows, [], w.writers[id].task.deletes)
    case Ok(rows) => WithTask(w, id, Idle).(rows := rows)
    case Err(_) => WithTask(w, id, Idle)
  }

  function Next(w: World, a: Action): World {
    match a
    case Open(id) => NextOpen(w, id)
    case Append(id, changeset) =>
      if id in w.writers && w.writers[id].task.Idle? then NextAppend(w, id, changeset) else w
    case SaveSnapshot(id) =>
      if id in w.writers && w.writers[id].task.Compacting? then NextSnapshot(w, id) else w
    case ListRedundant(id) =>
      if id in w.writers && w.writers[id].task.Listing_? then NextList(w, id) else w
    case Prune(id) =>
      if id in w.writers && w.writers[id].task.Pruning? then NextPrune(w, id) else w
    case Reload(id) =>
      if id in w.writers && w.writers[id].task.Retrying? then NextReload(w, id) else w
    case Crash(id) => w.(writers := w.writers - {id})
  }

  function Run(w: World, actions: seq<Action>): World
    decreases |actions|
  {
    if actions == [] then w else Next(Run(w, actions[..|actions| - 1]), actions[|actions| - 1])
  }

  // ---- The meaning of the journal ------------------------------------------

  /** The one value the journal stands for: the left fold of `Merge`. */
  function Fold(base: ChangeSet, log: seq<ChangeSet>): ChangeSet
    decreases |log|
  {
    if log == [] then base else Merge(Fold(base, log[..|log| - 1]), log[|log| - 1])
  }

  function Compacted(t: Rows): nat {
    if SnapshotId in t && t[SnapshotId].value.Snapshot? then t[SnapshotId].value.compacted else 0
  }

  /** Every committed changeset was acceptable to the aggregate before it. */
  ghost predicate Acceptable(base: ChangeSet, log: seq<ChangeSet>) {
    forall i | 0 <= i < |log| :: AcceptedAt(base, log, i)
  }

  ghost predicate AcceptedAt(base: ChangeSet, log: seq<ChangeSet>, i: nat)
    requires i < |log|
  {
    log[i] != EMPTY && !Conflicts(Fold(base, log[..i]), log[i])
  }

  ghost predicate SnapshotMeans(t: Rows, base: ChangeSet, log: seq<ChangeSet>) {
    if SnapshotId !in t then base == EMPTY
    else
      && t[SnapshotId].revision > 0
      && t[SnapshotId].value.Snapshot?
      && ValidateSnapshot(t[SnapshotId].value).Ok?
      && t[SnapshotId].value.compacted <= |log|
      && t[SnapshotId].value.changeset == Fold(base, log[..t[SnapshotId].value.compacted])
  }

  ghost predicate HeadMeans(t: Rows, log: seq<ChangeSet>) {
    if log == [] then HeadId !in t
    else HeadId in t && t[HeadId] == Stored(|log|, Head(|log| + 1))
  }

  ghost predicate DeltasMean(t: Rows, log: seq<ChangeSet>) {
    && (forall s: nat {:trigger DeltaId(s)} | DeltaId(s) in t :: 1 <= s <= |log| && t[DeltaId(s)] == Stored(1, Delta(s, log[s - 1])))
    && (forall s: nat {:trigger DeltaId(s)} | Compacted(t) < s <= |log| :: DeltaId(s) in t)
  }

  /** The stored rows mean `Fold(base, log)`, whatever has been compacted or pruned. */
  ghost predicate Means(t: Rows, base: ChangeSet, log: seq<ChangeSet>) {
    && (base == EMPTY || Complete(base))
    && |log| + 1 <= U64_MAX
    && Acceptable(base, log)
    && SnapshotMeans(t, base, log)
    && HeadMeans(t, log)
    && DeltasMean(t, log)
  }

  /** A cached state is the aggregate of some prefix, named by its head revision. */
  ghost predicate CachedMeans(t: Rows, base: ChangeSet, log: seq<ChangeSet>, c: Cached) {
    && c.headRevision <= |log|
    && c.next == c.headRevision + 1
    && c.aggregate == Fold(base, log[..c.headRevision])
    && c.persisted == (c.headRevision > 0 || base != EMPTY)
    && c.snapshotRevision <= Revision(t, SnapshotId)
    && (c.snapshotRevision == Revision(t, SnapshotId) ==>
          Compacted(t) <= c.headRevision && c.records == c.headRevision - Compacted(t))
  }

  ghost predicate TaskMeans(t: Rows, task: Task) {
    match task
    case Listing_(through) => through <= Compacted(t)
    case Pruning(deletes) => forall i | 0 <= i < |deletes| :: deletes[i].id.DeltaId? && deletes[i].id.sequence <= Compacted(t)
    case _ => true
  }

  ghost predicate Inv(w: World, base: ChangeSet) {
    && Means(w.rows, base, w.log)
    && (forall id | id in w.writers ::
          CachedMeans(w.rows, base, w.log, w.writers[id].cached) && TaskMeans(w.rows, w.writers[id].task))
  }

  /** A new account, or one left by the snapshot-only format. */
  ghost predicate Initial(w: World, base: ChangeSet) {
    && w.writers == map[] && w.log == []
    && (|| (w.rows == map[] && base == EMPTY)
        || (exists revision: nat, format: nat ::
              && revision > 0 && (format == LEGACY_STATE_FORMAT || format == STATE_FORMAT) && Complete(base)
              && w.rows == map[SnapshotId := Stored(revision, Snapshot(format, 0, base))]))
  }

  // ---- Loading returns the fold ------------------------------------------------

  lemma FoldPrefix(base: ChangeSet, log: seq<ChangeSet>, n: nat)
    requires n < |log|
    ensures Fold(base, log[..n + 1]) == Merge(Fold(base, log[..n]), log[n])
  {
    assert log[..n + 1][..n] == log[..n];
  }

  /** A stored delta is skipped when compacted and merged when it is the expected one. */
  lemma ReplayDelta(t: Rows, base: ChangeSet, log: seq<ChangeSet>, s: nat, acc: Replayed)
    requires Means(t, base, log) && DeltaId(s) in t
    requires acc.total < MAX_RECORDS
    requires s > Compacted(t) ==> s == acc.expected && acc.aggregate == Fold(base, log[..s - 1])
    ensures 1 <= s <= |log|
    ensures ReplayRow(Compacted(t), acc, RowAt(t, DeltaId(s))) ==
            Ok(if s <= Compacted(t) then acc.(total := acc.total + 1)
               else Replayed(Fold(base, log[..s]), s + 1, acc.active + 1, acc.total + 1, acc.head))
  {
    assert AcceptedAt(base, log, s - 1);
    FoldPrefix(base, log, s - 1);
  }

  /** The sequence the loop expects after k deltas. */
  function Expected(ids: seq<nat>, compacted: nat, k: nat): nat
    requires k <= |ids|
  {
    if k == 0 || ids[k - 1] <= compacted then compacted + 1 else ids[k - 1] + 1
  }

  /** The stored delta sequences in ascending order. */
  ghost predicate Lists(t: Rows, ids: seq<nat>) {
    && (forall i, j | 0 <= i < j < |ids| :: ids[i] < ids[j])
    && (forall i | 0 <= i < |ids| :: DeltaId(ids[i]) in t)
    && (forall s: nat {:trigger DeltaId(s)} | DeltaId(s) in t :: s in ids)
  }

  /** Stored deltas leave no gap after the compacted sequence. */
  lemma NoGap(t: Rows, base: ChangeSet, log: seq<ChangeSet>, ids: seq<nat>, k: nat)
    requires Means(t, base, log) && Lists(t, ids) && k <= |ids|
    ensures Compacted(t) <= |log|
    ensures k < |ids| ==> 1 <= ids[k] <= |log|
    ensures k < |ids| && ids[k] > Compacted(t) ==> ids[k] == Expected(ids, Compacted(t), k)
    ensures k == |ids| ==> Expected(ids, Compacted(t), k) == |log| + 1
    ensures Expected(ids, Compacted(t), k) <= |log| + 1
  {
    var e := Expected(ids, Compacted(t), k);
    if k > 0 { assert DeltaId(ids[k - 1]) in t; }
    if k < |ids| { assert DeltaId(ids[k]) in t; }
    if e <= |log| {
      assert DeltaId(e) in t;
      var j :| 0 <= j < |ids| && ids[j] == e;
      assert j >= k;
    }
  }

  function StateAt(base: ChangeSet, log: seq<ChangeSet>, ids: seq<nat>, compacted: nat, head: HeadSeen, k: nat): Replayed
    requires k <= |ids| && Expected(ids, compacted, k) <= |log| + 1
  {
    var e := Expected(ids, compacted, k);
    Replayed(Fold(base, log[..e - 1]), e, e - 1 - compacted, k, head)
  }

  lemma StateStep(t: Rows, base: ChangeSet, log: seq<ChangeSet>, ids: seq<nat>, head: HeadSeen, k: nat)
    requires Means(t, base, log) && Lists(t, ids) && k < |ids| <= MAX_RECORDS
    ensures Expected(ids, Compacted(t), k) <= |log| + 1 && Expected(ids, Compacted(t), k + 1) <= |log| + 1
    ensures ReplayRow(Compacted(t), StateAt(base, log, ids, Compacted(t), head, k), RowAt(t, DeltaId(ids[k]))) ==
            Ok(StateAt(base, log, ids, Compacted(t), head, k + 1))
  {
    hide Fold; hide ReplayRow;
    NoGap(t, base, log, ids, k);
    NoGap(t, base, log, ids, k + 1);
    if k > 0 { assert ids[k - 1] < ids[k]; }
    var here, there := StateAt(base, log, ids, Compacted(t), head, k), StateAt(base, log, ids, Compacted(t), head, k + 1);
    ReplayDelta(t, base, log, ids[k], here);
    if ids[k] <= Compacted(t) {
      assert Expected(ids, Compacted(t), k) == Expected(ids, Compacted(t), k + 1);
    } else {
      assert there == Replayed(Fold(base, log[..ids[k]]), ids[k] + 1, here.active + 1, k + 1, head);
    }
  }

  /** Replaying ascending deltas skips the compacted ones and folds the rest. */
  lemma {:induction false} DeltasFold(t: Rows, base: ChangeSet, log: seq<ChangeSet>, ids: seq<nat>, head: HeadSeen, rows: seq<Row>, k: nat)
    requires Means(t, base, log) && Lists(t, ids) && k <= |ids| <= MAX_RECORDS
    requires |rows| == |ids| && forall i | 0 <= i < |ids| :: rows[i] == RowAt(t, DeltaId(ids[i]))
    ensures Expected(ids, Compacted(t), k) <= |log| + 1 == Expected(ids, Compacted(t), |ids|)
    ensures Replay(Compacted(t), StateAt(base, log, ids, Compacted(t), head, k), rows[k..]) ==
            Ok(StateAt(base, log, ids, Compacted(t), head, |ids|))
    decreases |ids| - k
  {
    hide Fold; hide ReplayRow;
    NoGap(t, base, log, ids, k);
    NoGap(t, base, log, ids, |ids|);
    if k < |ids| {
      StateStep(t, base, log, ids, head, k);
      assert rows[k..][0] == rows[k] && rows[k..][1..] == rows[k + 1..];
      DeltasFold(t, base, log, ids, head, rows, k + 1);
    }
  }

  lemma ReplayHeadFirst(compacted: nat, acc: Replayed, head: Row, rows: seq<Row>)
    requires head.id == HeadId && head.value.Head? && head.value.next != 0 && acc.head.NotSeen?
    ensures Replay(compacted, acc, [head] + rows) ==
            Replay(compacted, acc.(head := Seen(head.revision, head.value.next)), rows)
  {
    assert ([head] + rows)[1..] == rows;
  }

  lemma SnapshotLoads(t: Rows, base: ChangeSet, log: seq<ChangeSet>)
    requires Means(t, base, log)
    ensures Compacted(t) <= |log|
    ensures LoadSnapshot(t) == Ok(Start(Revision(t, SnapshotId), Compacted(t), Fold(base, log[..Compacted(t)]), SnapshotId in t))
    ensures SnapshotId in t ==> Complete(Fold(base, log[..Compacted(t)]))
  {
    assert log[..0] == [];
  }

  /** `rows` is the ordered listing: the head row if there is one, then the deltas `ids`. */
  ghost predicate Ordered(t: Rows, rows: seq<Row>, ids: seq<nat>) {
    && Lists(t, ids)
    && (HeadId in t ==> |rows| == |ids| + 1 && rows[0] == RowAt(t, HeadId)
                        && forall k | 0 <= k < |ids| :: rows[1..][k] == RowAt(t, DeltaId(ids[k])))
    && (HeadId !in t ==> |rows| == |ids| && forall k | 0 <= k < |ids| :: rows[k] == RowAt(t, DeltaId(ids[k])))
  }

  lemma ListingOrdered(t: Rows)
    ensures Ordered(t, Listing(t), Ascending(DeltaSequences(t)))
  {
    var ids := Ascending(DeltaSequences(t));
    forall i | 0 <= i < |ids| ensures DeltaId(ids[i]) in t { assert ids[i] in ids; }
    forall s: nat | DeltaId(s) in t ensures s in ids { assert s in DeltaSequences(t); }
  }

  /** The whole listing replays to the fold of the log. */
  lemma RowsFold(t: Rows, base: ChangeSet, log: seq<ChangeSet>, rows: seq<Row>, ids: seq<nat>)
    requires Means(t, base, log) && Ordered(t, rows, ids) && |ids| <= MAX_RECORDS
    ensures Compacted(t) <= |log|
    ensures Replay(Compacted(t), Replayed(Fold(base, log[..Compacted(t)]), Compacted(t) + 1, 0, 0, NotSeen), rows) ==
            Ok(Replayed(Fold(base, log), |log| + 1, |log| - Compacted(t), |ids|,
                        if log == [] then NotSeen else Seen(|log|, |log| + 1)))
  {
    NoGap(t, base, log, ids, |ids|);
    var head := if log == [] then NotSeen else Seen(|log|, |log| + 1);
    var deltas := if log == [] then rows else rows[1..];
    DeltasFold(t, base, log, ids, head, deltas, 0);
    assert deltas[0..] == deltas;
    assert StateAt(base, log, ids, Compacted(t), head, |ids|)
        == Replayed(Fold(base, log), |log| + 1, |log| - Compacted(t), |ids|, head) by { assert log[..|log|] == log; }
    if log != [] {
      assert rows == [rows[0]] + deltas;
      var acc := Replayed(Fold(base, log[..Compacted(t)]), Compacted(t) + 1, 0, 0, NotSeen);
      ReplayHeadFirst(Compacted(t), acc, rows[0], deltas);
    }
  }

  /** A field once present stays, with its value, under acceptable changesets. */
  lemma FieldsKept(base: ChangeSet, log: seq<ChangeSet>, n: nat)
    requires n <= |log| && Acceptable(base, log)
    ensures var a, b := Fold(base, log[..n]), Fold(base, log);
            && (a.descriptor.Some? ==> b.descriptor == a.descriptor)
            && (a.changeDescriptor.Some? ==> b.changeDescriptor == a.changeDescriptor)
            && (a.network.Some? ==> b.network == a.network)
    decreases |log|
  {
    if n == |log| {
      assert log[..n] == log;
    } else {
      var shorter := log[..|log| - 1];
      assert shorter[..n] == log[..n];
      forall i | 0 <= i < |shorter| ensures AcceptedAt(base, shorter, i) {
        assert AcceptedAt(base, log, i) && shorter[..i] == log[..i];
      }
      FieldsKept(base, shorter, n);
      var last := log[|log| - 1];
      assert AcceptedAt(base, log, |log| - 1);
    }
  }

  lemma RowsRecoverFold(t: Rows, base: ChangeSet, log: seq<ChangeSet>, rows: seq<Row>, ids: seq<nat>)
    requires Means(t, base, log) && Ordered(t, rows, ids)
    ensures LoadRows(t, rows).Ok? <==>
            |ids| <= MAX_RECORDS && ((log == [] && base == EMPTY) || Complete(Fold(base, log)))
    ensures LoadRows(t, rows).Ok? ==>
            LoadRows(t, rows).value == Cached(Revision(t, SnapshotId), |log|, |log| + 1, |log| - Compacted(t),
                                              log != [] || base != EMPTY, Fold(base, log))
  {
    SnapshotLoads(t, base, log);
    if |ids| <= MAX_RECORDS {
      RowsFold(t, base, log, rows, ids);
      assert SnapshotId in t ==> Complete(Fold(base, log)) by {
        FieldsKept(base, log, Compacted(t));
      }
    }
  }

  /**
   Crash recovery. Whatever prefix of the durable writes a crash left behind,
   `load_state` succeeds exactly when no more than 4096 deltas are stored and
   the account is new or its aggregate names both descriptors and the network;
   it then returns the fold of every committed changeset.
   */
  lemma LoadRecoversFold(t: Rows, base: ChangeSet, log: seq<ChangeSet>)
    requires Means(t, base, log)
    ensures LoadState(t).Ok? <==>
            |DeltaSequences(t)| <= MAX_RECORDS && ((log == [] && base == EMPTY) || Complete(Fold(base, log)))
    ensures LoadState(t).Ok? ==>
            LoadState(t).value == Cached(Revision(t, SnapshotId), |log|, |log| + 1, |log| - Compacted(t),
                                         log != [] || base != EMPTY, Fold(base, log))
  {
    ListingOrdered(t);
    RowsRecoverFold(t, base, log, Listing(t), Ascending(DeltaSequences(t)));
  }
}
