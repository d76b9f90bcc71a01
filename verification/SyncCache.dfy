/**
 The verified sync cache: three append-only streams kept as a head record, batch
 records and chunk records in a namespace. A damaged suffix is retired into a new
 epoch that keeps a verified prefix of the base namespace.
 */
module SyncCache {
  import opened RecordStore
  import opened FilterFraming

  const CHUNK_BYTES: nat := 512 * 1024
  const MAX_STREAM_BATCHES: nat := 65_536
  const MAX_CACHE_BYTES: nat := 8 * 1024 * 1024 * 1024
  const MAX_NEW_CACHE_BYTES: nat := 256 * 1024 * 1024

  /** Namespaces are hashes; here they are injective constructors. */
  datatype Namespace = Base | Epoch(n: nat)

  datatype Key =
    | HeadKey(ns: Namespace)
    | BatchKey(ns: Namespace, stream: nat, index: nat)
    | ChunkKey(ns: Namespace, stream: nat, index: nat, chunk: nat)
    | RecoveryKey

  datatype Counts = Counts(headers: nat, filterHeaders: nat, filters: nat)

  /** A batch's digest is its payload: SHA-256 is injective here. */
  datatype Record =
    | Head(ns: Namespace, counts: Counts, bytes: nat)
    | BatchRow(ns: Namespace, stream: nat, index: nat, bytes: nat, digest: Bytes)
    | ChunkRow(ns: Namespace, stream: nat, index: nat, chunk: nat, data: Bytes)
    | Recovery(epoch: nat, prefix: Counts)

  datatype Error = Corrupt | Store(error: StoreError)

  type Rows = Table<Key, Record>

  const NONE: Counts := Counts(0, 0, 0)

  function At(c: Counts, stream: nat): nat {
    if stream == 0 then c.headers else if stream == 1 then c.filterHeaders else c.filters
  }

  function With(c: Counts, stream: nat, n: nat): Counts {
    if stream == 0 then c.(headers := n) else if stream == 1 then c.(filterHeaders := n) else c.(filters := n)
  }

  predicate WithinLimit(c: Counts) {
    c.headers <= MAX_STREAM_BATCHES && c.filterHeaders <= MAX_STREAM_BATCHES && c.filters <= MAX_STREAM_BATCHES
  }

  predicate InNamespace(k: Key, ns: Namespace) {
    !k.RecoveryKey? && k.ns == ns
  }

  function NamespaceRows(t: Rows, ns: Namespace): set<Key> {
    set k | k in t && InNamespace(k, ns)
  }

  // ---- Reading ------------------------------------------------------------------------------------

  datatype HeadInfo = HeadInfo(revision: nat, counts: Counts, bytes: nat)

  /** `head_for`: a missing head is fine only in an empty namespace; the listing there has limit one. */
  function HeadFor(t: Rows, ns: Namespace): Result<HeadInfo, Error> {
    if HeadKey(ns) !in t then
      (if |NamespaceRows(t, ns)| > 1 then Err(Store(ListCapacity))
       else if |NamespaceRows(t, ns)| == 1 then Err(Corrupt)
       else Ok(HeadInfo(0, NONE, 0)))
    else
      match t[HeadKey(ns)].value
      case Head(saved, counts, bytes) =>
        if saved == ns && WithinLimit(counts) && bytes <= MAX_CACHE_BYTES
        then Ok(HeadInfo(t[HeadKey(ns)].revision, counts, bytes)) else Err(Corrupt)
      case _ => Err(Corrupt)
  }

  function ChunkCount(bytes: nat): nat {
    (bytes + CHUNK_BYTES - 1) / CHUNK_BYTES
  }

  /** The data of one chunk, if the record is there, is its own and has the expected length. */
  function ChunkData(t: Rows, ns: Namespace, stream: nat, index: nat, chunk: nat, expected: int): Option<Bytes> {
    var k := ChunkKey(ns, stream, index, chunk);
    if k !in t then None
    else
      match t[k].value
      case ChunkRow(n, s, i, c, data) =>
        if n == ns && s == stream && i == index && c == chunk && |data| == expected then Some(data) else None
      case _ => None
  }

  function ReadChunks(t: Rows, ns: Namespace, stream: nat, index: nat, bytes: nat, n: nat): Option<Bytes>
    decreases n
  {
    if n == 0 then Some([])
    else
      match ReadChunks(t, ns, stream, index, bytes, n - 1)
      case None => None
      case Some(payload) =>
        match ChunkData(t, ns, stream, index, n - 1, Smaller(bytes - |payload|, CHUNK_BYTES))
        case None => None
        case Some(data) => Some(payload + data)
  }

  /** The batch record's length and digest, if it is there and its own. */
  function BatchInfo(t: Rows, ns: Namespace, stream: nat, index: nat): Option<Record> {
    var k := BatchKey(ns, stream, index);
    if k !in t then None
    else
      match t[k].value
      case BatchRow(n, s, i, bytes, _) =>
        if n == ns && s == stream && i == index && 0 < bytes <= MAX_BATCH_BYTES then Some(t[k].value) else None
      case _ => None
  }

  function ReadPayload(t: Rows, ns: Namespace, stream: nat, index: nat): Option<Bytes> {
    match BatchInfo(t, ns, stream, index)
    case None => None
    case Some(b) =>
      if !b.BatchRow? then None
      else
        match ReadChunks(t, ns, stream, index, b.bytes, ChunkCount(b.bytes))
        case None => None
        case Some(payload) =>
          if payload != b.digest || Deserialize(stream, payload).None? then None else Some(payload)
  }

  function ReadAt(t: Rows, ns: Namespace, stream: nat, index: nat): Result<Option<Bytes>, Error> {
    match HeadFor(t, ns)
    case Err(e) => Err(e)
    case Ok(head) =>
      if index >= At(head.counts, stream) then Ok(None)
      else
        match ReadPayload(t, ns, stream, index)
        case None => Err(Corrupt)
        case Some(payload) => Ok(Some(payload))
  }

  /** An open cache: its epoch, the prefix of the base namespace it keeps, and whether it gave up. */
  datatype Handle = Handle(epoch: nat, prefix: Counts, retired: bool)

  function NamespaceOf(epoch: nat): Namespace {
    if epoch == 0 then Base else Epoch(epoch)
  }

  /** `read_batch`: below the kept prefix from the base namespace, above it from the epoch's own. */
  function ReadBatch(t: Rows, h: Handle, stream: nat, index: nat): Result<Option<Bytes>, Error> {
    var prefix := At(h.prefix, stream);
    if index < prefix then ReadAt(t, Base, stream, index)
    else ReadAt(t, NamespaceOf(h.epoch), stream, index - prefix)
  }

  // ---- Opening and retiring -------------------------------------------------------------------------

  function Open(t: Rows): Result<Handle, Error> {
    if RecoveryKey !in t then Ok(Handle(0, NONE, false))
    else
      match t[RecoveryKey].value
      case Recovery(epoch, prefix) =>
        if epoch > 0 && WithinLimit(prefix) then Ok(Handle(epoch, prefix, false)) else Err(Corrupt)
      case _ => Err(Corrupt)
  }

  /** The prefix kept when a batch is damaged: nothing from it on, and nothing of the streams after it. */
  function Shortened(c: Counts, stream: nat, index: nat): Counts {
    if index >= At(c, stream) then c
    else if stream == 0 then Counts(index, 0, 0)
    else if stream == 1 then Counts(c.headers, index, 0)
    else Counts(c.headers, c.filterHeaders, index)
  }

  function KeptSoFar(t: Rows, h: Handle): Result<Counts, Error> {
    if h.epoch != 0 then Ok(h.prefix)
    else
      match HeadFor(t, Base)
      case Ok(head) => Ok(head.counts)
      case Err(Corrupt) => Ok(NONE)
      case Err(e) => Err(e)
  }

  function SavedEpoch(t: Rows): Result<nat, Error> {
    if RecoveryKey !in t then Ok(0)
    else
      match t[RecoveryKey].value
      case Recovery(epoch, _) => Ok(epoch)
      case _ => Err(Corrupt)
  }

  /** `retire_corrupt_epoch`. */
  function Retire(t: Rows, h: Handle, stream: nat, index: nat): Result<Rows, Error> {
    if h.retired then Ok(t)
    else
      match SavedEpoch(t)
      case Err(e) => Err(e)
      case Ok(epoch) =>
        if epoch != h.epoch then Ok(t)
        else
          match KeptSoFar(t, h)
          case Err(e) => Err(e)
          case Ok(kept) =>
            Ok(t[RecoveryKey := Stored(Revision(t, RecoveryKey) + 1, Recovery(epoch + 1, Shortened(kept, stream, index)))])
  }

  // ---- Appending -------------------------------------------------------------------------------------

  function ChunkOf(payload: Bytes, chunk: nat): Bytes
    requires chunk < ChunkCount(|payload|)
  {
    payload[chunk * CHUNK_BYTES..Smaller((chunk + 1) * CHUNK_BYTES, |payload|)]
  }

  function ChunkSave(ns: Namespace, stream: nat, index: nat, payload: Bytes, chunk: nat): Save<Key, Record>
    requires chunk < ChunkCount(|payload|)
  {
    Save(ChunkKey(ns, stream, index, chunk), 0, ChunkRow(ns, stream, index, chunk, ChunkOf(payload, chunk)))
  }

  function AppendSaves(ns: Namespace, stream: nat, head: HeadInfo, payload: Bytes): (r: seq<Save<Key, Record>>)
    ensures |r| == 2 + ChunkCount(|payload|)
  {
    var index := At(head.counts, stream);
    [Save(HeadKey(ns), head.revision, Head(ns, With(head.counts, stream, index + 1), head.bytes + |payload|)),
     Save(BatchKey(ns, stream, index), 0, BatchRow(ns, stream, index, |payload|, payload))]
    + seq(ChunkCount(|payload|), c requires 0 <= c < ChunkCount(|payload|) => ChunkSave(ns, stream, index, payload, c))
  }

  /** There is room for the batch: by bytes, tested for this batch alone, and by count. */
  predicate Fits(head: HeadInfo, stream: nat, payload: Bytes) {
    head.bytes + |payload| <= MAX_NEW_CACHE_BYTES && At(head.counts, stream) < MAX_STREAM_BATCHES
  }

  /** `append_batch` on a serialized batch that passed validation. */
  function Append(t: Rows, h: Handle, stream: nat, payload: Bytes): Result<Rows, Error> {
    if h.retired || |payload| > MAX_BATCH_BYTES then Err(Corrupt)
    else
      var ns := NamespaceOf(h.epoch);
      match HeadFor(t, ns)
      case Err(e) => Err(e)
      case Ok(head) =>
        if !Fits(head, stream, payload) then Ok(t)
        else
          match ApplyBatch(t, AppendSaves(ns, stream, head, payload), [])
          case Ok(next) => Ok(next)
          case Err(e) => Err(Store(e))
  }

  // ---- The cache object ---------------------------------------------------------------------------------

  class EncryptedSyncCache {
    const store: WalletStore<Key, Record>
    const epoch: nat
    const prefix: Counts
    var retired: bool

    ghost function View(): Handle
      reads this
    {
      Handle(epoch, prefix, retired)
    }

    constructor (s: WalletStore<Key, Record>, h: Handle)
      requires Open(s.table) == Ok(h)
      ensures store == s && View() == h
    {
      store := s;
      epoch := h.epoch;
      prefix := h.prefix;
      retired := h.retired;
    }

    /** The chunks of one batch, put together. */
    method Payload(ns: Namespace, stream: nat, index: nat, bytes: nat) returns (r: Option<Bytes>)
      ensures r == ReadChunks(store.table, ns, stream, index, bytes, ChunkCount(bytes))
    {
      hide ChunkData;
      var payload: Bytes := [];
      var chunk := 0;
      while chunk < ChunkCount(bytes)
        invariant 0 <= chunk <= ChunkCount(bytes)
        invariant ReadChunks(store.table, ns, stream, index, bytes, chunk) == Some(payload)
      {
        var data := ChunkData(store.table, ns, stream, index, chunk, Smaller(bytes - |payload|, CHUNK_BYTES));
        if data.None? {
          MissingChunk(store.table, ns, stream, index, bytes, chunk + 1, ChunkCount(bytes));
          return None;
        }
        payload := payload + data.value;
        chunk := chunk + 1;
      }
      r := Some(payload);
    }

    method ReadOne(stream: nat, index: nat) returns (r: Result<Option<Bytes>, Error>)
      ensures r == ReadBatch(store.table, View(), stream, index)
    {
      hide ReadChunks; hide Deserialize; hide HeadFor;
      var kept := At(prefix, stream);
      var ns := if index < kept then Base else NamespaceOf(epoch);
      var local := if index < kept then index else index - kept;
      var head := HeadFor(store.table, ns);
      if head.Err? { return Err(head.error); }
      if local >= At(head.value.counts, stream) { return Ok(None); }
      var batch := BatchInfo(store.table, ns, stream, local);
      if batch.None? || !batch.value.BatchRow? { return Err(Corrupt); }
      var payload := Payload(ns, stream, local, batch.value.bytes);
      if payload.None? || payload.value != batch.value.digest || Deserialize(stream, payload.value).None? { return Err(Corrupt); }
      r := Ok(Some(payload.value));
    }

    /** `read`: a corrupt batch retires the epoch before the error is reported. */
    method Read(stream: nat, index: nat) returns (r: Result<Option<Bytes>, Error>)
      modifies store, this
      ensures r == ReadBatch(old(store.table), old(View()), stream, index)
      ensures if r == Err(Corrupt) && Retire(old(store.table), old(View()), stream, index).Ok?
              then store.table == Retire(old(store.table), old(View()), stream, index).value && retired
              else store.table == old(store.table) && retired == old(retired)
    {
      hide ReadBatch; hide Shortened; hide HeadFor;
      r := ReadOne(stream, index);
      if r == Err(Corrupt) {
        var outcome := Retire(store.table, Handle(epoch, prefix, retired), stream, index);
        if outcome.Ok? {
          if outcome.value != store.table {
            var next := outcome.value[RecoveryKey].value;
            var saved := store.SaveOne(RecoveryKey, Revision(store.table, RecoveryKey), next);
          }
          retired := true;
        }
      }
    }

    method AppendOne(batch: Batch) returns (r: Result<(), Error>)
      requires WellTyped(batch)
      modifies store
      ensures !ValidBatch(batch) ==> r.Err? && store.table == old(store.table)
      ensures ValidBatch(batch) ==>
                var outcome := Append(old(store.table), View(), StreamOf(batch), Serialize(batch));
                && r.Ok? == outcome.Ok?
                && store.table == if outcome.Ok? then outcome.value else old(store.table)
    {
      hide Serialize; hide HeadFor; hide ValidBatch; hide ApplyBatch;
      if retired || !ValidBatch(batch) { return Err(Corrupt); }
      var payload := Serialize(batch);
      if |payload| > MAX_BATCH_BYTES { return Err(Corrupt); }
      var ns, stream := NamespaceOf(epoch), StreamOf(batch);
      var head := HeadFor(store.table, ns);
      if head.Err? { return Err(head.error); }
      if !Fits(head.value, stream, payload) { return Ok(()); }
      var saves := AppendSaves(ns, stream, head.value, payload);
      var applied := store.Apply(saves, []);
      r := if applied.Ok? then Ok(()) else Err(Store(applied.error));
    }
  }

  lemma {:induction false} MissingChunk(t: Rows, ns: Namespace, stream: nat, index: nat, bytes: nat, n: nat, m: nat)
    requires n <= m && ReadChunks(t, ns, stream, index, bytes, n).None?
    ensures ReadChunks(t, ns, stream, index, bytes, m).None?
    decreases m
  {
    if n < m { MissingChunk(t, ns, stream, index, bytes, n, m - 1); }
  }
}
