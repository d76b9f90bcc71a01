/**
 Retirement of a damaged epoch: what stays readable, how the kept prefixes are
 nested, how many retirements can follow, and when damage is never retired.
 */
module SyncCacheEpochs {
  import opened RecordStore
  import opened FilterFraming
  import opened SyncCache
  import opened SyncCacheLogs

  // ---- Reads depend on one namespace ------------------------------------------------------------

  ghost predicate SameNamespace(a: Rows, b: Rows, ns: Namespace) {
    forall k | InNamespace(k, ns) :: SameRow(a, b, k)
  }

  lemma {:induction false} ChunksFrame(a: Rows, b: Rows, ns: Namespace, stream: nat, index: nat, bytes: nat, n: nat)
    requires SameNamespace(a, b, ns)
    ensures ReadChunks(a, ns, stream, index, bytes, n) == ReadChunks(b, ns, stream, index, bytes, n)
    decreases n
  {
    if n != 0 {
      ChunksFrame(a, b, ns, stream, index, bytes, n - 1);
      assert SameRow(a, b, ChunkKey(ns, stream, index, n - 1));
    }
  }

  lemma HeadFrame(a: Rows, b: Rows, ns: Namespace)
    requires SameNamespace(a, b, ns)
    ensures HeadFor(a, ns) == HeadFor(b, ns)
  {
    assert SameRow(a, b, HeadKey(ns));
    forall k ensures k in NamespaceRows(a, ns) <==> k in NamespaceRows(b, ns) {
      if InNamespace(k, ns) { assert SameRow(a, b, k); }
    }
    assert NamespaceRows(a, ns) == NamespaceRows(b, ns);
  }

  lemma ReadFrame(a: Rows, b: Rows, ns: Namespace, stream: nat, index: nat)
    requires SameNamespace(a, b, ns)
    ensures ReadAt(a, ns, stream, index) == ReadAt(b, ns, stream, index)
  {
    HeadFrame(a, b, ns);
    assert SameRow(a, b, BatchKey(ns, stream, index));
    hide HeadFor; hide Deserialize;
    var info := BatchInfo(a, ns, stream, index);
    if info.Some? && info.value.BatchRow? {
      ChunksFrame(a, b, ns, stream, index, info.value.bytes, ChunkCount(info.value.bytes));
    }
    hide ReadChunks;
    assert ReadPayload(a, ns, stream, index) == ReadPayload(b, ns, stream, index);
  }

  lemma EmptyReads(t: Rows, ns: Namespace, stream: nat, index: nat)
    requires forall k | k in t :: !InNamespace(k, ns)
    ensures ReadAt(t, ns, stream, index) == Ok(None)
  {
    assert NamespaceRows(t, ns) == {};
  }

  // ---- One retirement -------------------------------------------------------------------------------

  ghost predicate NoRows(t: Rows, ns: Namespace) {
    forall k | k in t :: !InNamespace(k, ns)
  }

  /** The prefix that a reopened cache keeps. */
  function KeptAfter(t: Rows, h: Handle, stream: nat, index: nat): Counts
    requires KeptSoFar(t, h).Ok?
  {
    Shortened(KeptSoFar(t, h).value, stream, index)
  }

  lemma CanRetire(t: Rows, h: Handle, stream: nat, index: nat)
    requires Open(t) == Ok(h) && ReadBatch(t, h, stream, index) == Err(Corrupt)
    ensures KeptSoFar(t, h).Ok? && WithinLimit(KeptSoFar(t, h).value)
    ensures h.epoch == 0 ==> HeadFor(t, Base).Ok? || HeadFor(t, Base) == Err(Corrupt)
    ensures var t' := t[RecoveryKey := Stored(Revision(t, RecoveryKey) + 1, Recovery(h.epoch + 1, KeptAfter(t, h, stream, index)))];
            Retire(t, h, stream, index) == Ok(t') && Open(t') == Ok(Handle(h.epoch + 1, KeptAfter(t, h, stream, index), false))
  {
    hide ReadPayload;
  }

  lemma OnlyRecoveryChanges(t: Rows, row: Stored<Record>, ns: Namespace)
    ensures SameNamespace(t, t[RecoveryKey := row], ns)
  {
  }

  /** Below what is kept, the base namespace is read as it was before. */
  lemma KeptReads(t: Rows, h: Handle, stream: nat, index: nat, s: nat, i: nat)
    requires Open(t) == Ok(h) && KeptSoFar(t, h).Ok? && i < At(KeptAfter(t, h, stream, index), s)
    ensures ReadBatch(t, h, s, i) == ReadAt(t, Base, s, i)
  {
    hide HeadFor; hide ReadPayload;
    assert At(KeptAfter(t, h, stream, index), s) <= At(KeptSoFar(t, h).value, s);
  }

  /**
   After a damaged read and a reopening, every stream is a prefix of what it was:
   below the kept count each read answers as before, above it there is nothing,
   and the damaged index is above it.
   */
  lemma RetirementIsSound(t: Rows, h: Handle, stream: nat, index: nat)
    requires Open(t) == Ok(h) && ReadBatch(t, h, stream, index) == Err(Corrupt) && NoRows(t, Epoch(h.epoch + 1))
    ensures Retire(t, h, stream, index).Ok? && Open(Retire(t, h, stream, index).value).Ok?
    ensures var t' := Retire(t, h, stream, index).value;
            var h' := Open(t').value;
            && h'.epoch == h.epoch + 1
            && (forall s: nat, i: nat | i < At(h'.prefix, s) :: ReadBatch(t', h', s, i) == ReadBatch(t, h, s, i))
            && (forall s: nat, i: nat | i >= At(h'.prefix, s) :: ReadBatch(t', h', s, i) == Ok(None))
            && At(h'.prefix, stream) <= index
  {
    CanRetire(t, h, stream, index);
    var t' := Retire(t, h, stream, index).value;
    var h' := Open(t').value;
    OnlyRecoveryChanges(t, t'[RecoveryKey], Base);
    assert At(h'.prefix, stream) <= index by { DamageIsBeyond(t, h, stream, index); }
    forall s: nat, i: nat | i < At(h'.prefix, s) ensures ReadBatch(t', h', s, i) == ReadBatch(t, h, s, i) {
      KeptReads(t, h, stream, index, s, i);
      hide ReadAt; hide Retire; hide Open; hide KeptSoFar;
      ReadFrame(t, t', Base, s, i);
    }
    forall s: nat, i: nat | i >= At(h'.prefix, s) ensures ReadBatch(t', h', s, i) == Ok(None) {
      assert forall k | k in t' :: !InNamespace(k, Epoch(h.epoch + 1));
      EmptyReads(t', Epoch(h.epoch + 1), s, i - At(h'.prefix, s));
    }
  }

  lemma DamageIsBeyond(t: Rows, h: Handle, stream: nat, index: nat)
    requires KeptSoFar(t, h).Ok?
    ensures At(KeptAfter(t, h, stream, index), stream) <= index
  {
  }

  // ---- The kept prefixes over whole runs ---------------------------------------------------------------

  /** A stream keeps something only if every earlier stream is complete. */
  predicate Nested(prefix: Counts, complete: Counts) {
    && prefix.headers <= complete.headers && prefix.filterHeaders <= complete.filterHeaders && prefix.filters <= complete.filters
    && (prefix.filterHeaders > 0 ==> prefix.headers == complete.headers)
    && (prefix.filters > 0 ==> prefix.headers == complete.headers && prefix.filterHeaders == complete.filterHeaders)
  }

  lemma ShortenedNests(c: Counts, complete: Counts, stream: nat, index: nat)
    requires Nested(c, complete)
    ensures Nested(Shortened(c, stream, index), complete)
  {
  }

  /** `complete` is the base head's counts when the first epoch was retired. */
  datatype World = World(t: Rows, h: Handle, complete: Option<Counts>)

  datatype Action =
    | Damage(key: Key, row: Option<Stored<Record>>)
    | DoAppend(stream: nat, payload: Bytes)
    | DoRead(stream: nat, index: nat)
    | Reopen

  /** Damage changes or removes a stored cache record, whatever it holds afterwards. */
  function Damaged(t: Rows, k: Key, row: Option<Stored<Record>>): Rows {
    if k !in t || k.RecoveryKey? then t else if row.None? then t - {k} else t[k := row.value]
  }

  function AfterRead(w: World, stream: nat, index: nat): World {
    if ReadBatch(w.t, w.h, stream, index) != Err(Corrupt) || w.h.retired then w
    else
      match Retire(w.t, w.h, stream, index)
      case Err(_) => w
      case Ok(next) =>
        World(next, w.h.(retired := true),
              if w.complete.None? && KeptSoFar(w.t, w.h).Ok? then Some(KeptSoFar(w.t, w.h).value) else w.complete)
  }

  function Next(w: World, a: Action): World {
    match a
    case Damage(k, row) => w.(t := Damaged(w.t, k, row))
    case DoAppend(stream, payload) =>
      (match Append(w.t, w.h, stream, payload)
       case Ok(next) => w.(t := next)
       case Err(_) => w)
    case DoRead(stream, index) => AfterRead(w, stream, index)
    case Reopen =>
      (match Open(w.t)
       case Ok(h) => w.(h := h)
       case Err(_) => w)
  }

  function Run(w: World, actions: seq<Action>): World
    decreases |actions|
  {
    if actions == [] then w else Next(Run(w, actions[..|actions| - 1]), actions[|actions| - 1])
  }

  /** No record lies in an epoch that was not opened yet. */
  ghost predicate NoFuture(t: Rows, epoch: nat) {
    forall k | k in t && !k.RecoveryKey? && k.ns.Epoch? :: k.ns.n <= epoch
  }

  ghost predicate Inv(w: World) {
    && Open(w.t).Ok?
    && var open := Open(w.t).value;
       && NoFuture(w.t, open.epoch)
       && w.h.epoch <= open.epoch && (!w.h.retired ==> w.h == open)
       && (open.epoch == 0 <==> w.complete.None?)
       && (w.complete.Some? ==> Nested(open.prefix, w.complete.value))
  }

  lemma DamageStep(w: World, k: Key, row: Option<Stored<Record>>)
    requires Inv(w)
    ensures Inv(Next(w, Damage(k, row)))
  {
    assert Open(Damaged(w.t, k, row)) == Open(w.t);
  }

  lemma AppendStep(w: World, stream: nat, payload: Bytes)
    requires Inv(w)
    ensures Inv(Next(w, DoAppend(stream, payload)))
  {
    var outcome := Append(w.t, w.h, stream, payload);
    if outcome.Ok? {
      AppendFrame(w.t, w.h, stream, payload);
      hide Append;
      assert SameRow(w.t, outcome.value, RecoveryKey);
      assert Open(outcome.value) == Open(w.t);
      hide Open;
      forall k | k in outcome.value && !k.RecoveryKey? && k.ns.Epoch? ensures k.ns.n <= Open(w.t).value.epoch {
        if !InNamespace(k, NamespaceOf(w.h.epoch)) { assert SameRow(w.t, outcome.value, k); }
      }
    }
  }

  /** An append writes to the epoch's own namespace only. */
  lemma AppendFrame(t: Rows, h: Handle, stream: nat, payload: Bytes)
    requires Append(t, h, stream, payload).Ok?
    ensures forall k | !InNamespace(k, NamespaceOf(h.epoch)) :: SameRow(t, Append(t, h, stream, payload).value, k)
  {
    var ns, after := NamespaceOf(h.epoch), Append(t, h, stream, payload).value;
    if after != t {
      var head := HeadFor(t, ns).value;
      var saves := AppendSaves(ns, stream, head, payload);
      assert ApplyBatch(t, saves, []) == Ok(after);
      SavesInNamespace(ns, stream, head, payload);
      hide HeadFor; hide AppendSaves; hide ApplyBatch; hide Append;
      forall k | !InNamespace(k, ns) ensures SameRow(t, after, k) {
        UntouchedRow(t, saves, k);
      }
    }
  }

  lemma SavesInNamespace(ns: Namespace, stream: nat, head: HeadInfo, payload: Bytes)
    ensures var saves := AppendSaves(ns, stream, head, payload);
            forall i | 0 <= i < |saves| :: InNamespace(saves[i].id, ns)
  {
    var saves := AppendSaves(ns, stream, head, payload);
    SavesDistinct(ns, stream, head, payload);
    forall i | 0 <= i < |saves| ensures InNamespace(saves[i].id, ns) {
      if i >= 2 { assert saves[2 + (i - 2)] == ChunkSave(ns, stream, At(head.counts, stream), payload, i - 2); }
    }
  }

  lemma ReadStep(w: World, stream: nat, index: nat)
    requires Inv(w)
    ensures Inv(AfterRead(w, stream, index))
  {
    if ReadBatch(w.t, w.h, stream, index) == Err(Corrupt) && !w.h.retired {
      CanRetire(w.t, w.h, stream, index);
      hide ReadBatch; hide HeadFor;
      var kept := KeptSoFar(w.t, w.h).value;
      ShortenedNests(kept, if w.complete.None? then kept else w.complete.value, stream, index);
    }
  }

  lemma StepKeeps(w: World, a: Action)
    requires Inv(w)
    ensures Inv(Next(w, a))
  {
    hide Append; hide AfterRead; hide Damaged;
    match a
    case Damage(k, row) => DamageStep(w, k, row);
    case DoAppend(stream, payload) => AppendStep(w, stream, payload);
    case DoRead(stream, index) => ReadStep(w, stream, index);
    case Reopen =>
  }

  lemma {:induction false} RunKeeps(w: World, actions: seq<Action>)
    requires Inv(w)
    ensures Inv(Run(w, actions))
    decreases |actions|
  {
    hide Inv; hide Next;
    if actions != [] {
      RunKeeps(w, actions[..|actions| - 1]);
      StepKeeps(Run(w, actions[..|actions| - 1]), actions[|actions| - 1]);
    }
  }

  /**
   From an empty store, over every run of appends, damage, reads and reopenings:
   the cache can be opened, its next epoch is unused, and a stream keeps a
   nonempty base prefix only if every earlier stream's is complete as of the first
   retirement.
   */
  lemma PrefixesStayNested(actions: seq<Action>)
    ensures var w := Run(World(map[], Handle(0, NONE, false), None), actions);
            && Open(w.t).Ok? && NoRows(w.t, Epoch(Open(w.t).value.epoch + 1))
            && (Open(w.t).value.epoch > 0 ==> w.complete.Some? && Nested(Open(w.t).value.prefix, w.complete.value))
  {
    var start := World(map[], Handle(0, NONE, false), None);
    assert Inv(start);
    RunKeeps(start, actions);
    hide Run;
  }

  // ---- Progress --------------------------------------------------------------------------------------------

  function Length(c: Counts): nat {
    c.headers + c.filterHeaders + c.filters
  }

  datatype Place = Place(stream: nat, index: nat)

  /** A read through a freshly opened cache retires the epoch. */
  ghost predicate Retires(t: Rows, p: Place) {
    Open(t).Ok? && ReadBatch(t, Open(t).value, p.stream, p.index) == Err(Corrupt) && Retire(t, Open(t).value, p.stream, p.index).Ok?
  }

  ghost function Reread(t: Rows, p: Place): Rows {
    if Retires(t, p) then Retire(t, Open(t).value, p.stream, p.index).value else t
  }

  ghost function RereadAll(t: Rows, places: seq<Place>): Rows
    decreases |places|
  {
    if places == [] then t else Reread(RereadAll(t, places[..|places| - 1]), places[|places| - 1])
  }

  ghost function Retirements(t: Rows, places: seq<Place>): nat
    decreases |places|
  {
    if places == [] then 0
    else
      var before := places[..|places| - 1];
      Retirements(t, before) + if Retires(RereadAll(t, before), places[|places| - 1]) then 1 else 0
  }

  /** A retired epoch whose replacement holds nothing yet. */
  ghost predicate FreshEpoch(t: Rows) {
    Open(t).Ok? && Open(t).value.epoch > 0 && forall k | k in t && !k.RecoveryKey? && k.ns.Epoch? :: k.ns.n < Open(t).value.epoch
  }

  lemma RetirementShortens(t: Rows, p: Place)
    requires FreshEpoch(t) && Retires(t, p)
    ensures FreshEpoch(Reread(t, p)) && Length(Open(Reread(t, p)).value.prefix) < Length(Open(t).value.prefix)
  {
    var h := Open(t).value;
    if p.index >= At(h.prefix, p.stream) {
      EmptyReads(t, Epoch(h.epoch), p.stream, p.index - At(h.prefix, p.stream));
    }
    CanRetire(t, h, p.stream, p.index);
    hide ReadBatch; hide HeadFor;
  }

  /** With no new damage and no appends, the kept batches bound the retirements still to come. */
  lemma {:induction false} RetirementsAreBounded(t: Rows, places: seq<Place>)
    requires FreshEpoch(t)
    ensures FreshEpoch(RereadAll(t, places))
    ensures Retirements(t, places) + Length(Open(RereadAll(t, places)).value.prefix) <= Length(Open(t).value.prefix)
    decreases |places|
  {
    hide Reread; hide Retires; hide FreshEpoch;
    if places != [] {
      var before, p := places[..|places| - 1], places[|places| - 1];
      RetirementsAreBounded(t, before);
      if Retires(RereadAll(t, before), p) {
        RetirementShortens(RereadAll(t, before), p);
      } else {
        NotRetired(RereadAll(t, before), p);
      }
    }
  }

  lemma NotRetired(t: Rows, p: Place)
    requires !Retires(t, p)
    ensures Reread(t, p) == t
  {
  }

  /** What the next retirement keeps at most. */
  function Kept(t: Rows): Counts {
    if Open(t).Ok? && KeptSoFar(t, Open(t).value).Ok? then KeptSoFar(t, Open(t).value).value else NONE
  }

  /** The first retirement leaves a fresh epoch with no more than that. */
  lemma FirstRetirement(t: Rows, p: Place)
    requires Open(t).Ok? && NoFuture(t, Open(t).value.epoch) && Retires(t, p)
    ensures FreshEpoch(Reread(t, p)) && Length(Open(Reread(t, p)).value.prefix) <= Length(Kept(t))
  {
    CanRetire(t, Open(t).value, p.stream, p.index);
    hide ReadBatch; hide HeadFor;
  }

  /** From any open cache, whatever it holds: one retirement, and then no more than the batches that it keeps. */
  lemma {:induction false} RetirementsEnd(t: Rows, places: seq<Place>)
    requires Open(t).Ok? && NoFuture(t, Open(t).value.epoch)
    ensures var after := RereadAll(t, places);
            if Retirements(t, places) == 0 then after == t
            else FreshEpoch(after) && Retirements(t, places) + Length(Open(after).value.prefix) <= 1 + Length(Kept(t))
    decreases |places|
  {
    hide Reread; hide Retires; hide FreshEpoch; hide NoFuture; hide Kept; hide Open;
    if places != [] {
      var before, p := places[..|places| - 1], places[|places| - 1];
      RetirementsEnd(t, before);
      var now := RereadAll(t, before);
      if !Retires(now, p) {
        NotRetired(now, p);
      } else if Retirements(t, before) == 0 {
        FirstRetirement(t, p);
      } else {
        RetirementShortens(now, p);
      }
    }
  }

  // ---- A lost head ----------------------------------------------------------------------------------------

  /**
   When the head record is gone, what a read reports depends on how many other
   records are left: it is taken for damage, and retired, exactly when one is.
   With two or more the listing fails instead, nothing is retired and no read or
   append of the namespace ever succeeds.
   */
  lemma LostHead(t: Rows, h: Handle, stream: nat, index: nat)
    requires HeadKey(NamespaceOf(h.epoch)) !in t && index >= At(h.prefix, stream)
    ensures var rest := |NamespaceRows(t, NamespaceOf(h.epoch))|;
            && (ReadBatch(t, h, stream, index) == Err(Corrupt) <==> rest == 1)
            && (ReadBatch(t, h, stream, index) == Ok(None) <==> rest == 0)
            && (rest >= 2 ==> ReadBatch(t, h, stream, index) == Err(Store(ListCapacity)))
            && (rest >= 2 ==> forall payload :: Append(t, h, stream, payload).Err?)
            && (rest >= 2 ==> forall complete :: AfterRead(World(t, h, complete), stream, index).t == t)
  {
    hide ReadPayload;
  }

  lemma TwoRowsLeft(t: Rows, l: Logs, s: nat)
    requires WellStored(t, Base, l) && s < 3 && Log(l, s) != []
    ensures |NamespaceRows(t - {HeadKey(Base)}, Base)| >= 2
  {
    hide Deserialize; hide Total; hide ChunkOf;
    var p := Log(l, s)[0];
    assert BatchStored(t, Base, s, 0, p);
    assert ChunkCount(|p|) > 0;
    assert ChunkStored(t, Base, s, 0, p, 0);
    hide WellStored; hide BatchStored; hide ChunkStored;
    var two := {BatchKey(Base, s, 0), ChunkKey(Base, s, 0, 0)};
    assert two <= NamespaceRows(t - {HeadKey(Base)}, Base);
    NoLarger(two, NamespaceRows(t - {HeadKey(Base)}, Base));
  }

  /** Any cache that holds a batch is stuck for good once its head is lost. */
  lemma LostHeadIsStuck(t: Rows, l: Logs, s: nat, stream: nat, index: nat)
    requires WellStored(t, Base, l) && s < 3 && Log(l, s) != []
    ensures var lost := t - {HeadKey(Base)};
            var w := World(lost, Handle(0, NONE, false), None);
            AfterRead(w, stream, index) == w && ReadBatch(lost, w.h, stream, index) == Err(Store(ListCapacity))
  {
    hide WellStored; hide NamespaceRows; hide ReadBatch;
    TwoRowsLeft(t, l, s);
    LostHead(t - {HeadKey(Base)}, Handle(0, NONE, false), stream, index);
  }

}
