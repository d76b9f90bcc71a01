/**
 The cache as three logs: what an append adds, what later reads return, and when
 a stream is a prefix of the batches offered to it.
 */
module SyncCacheLogs {
  import opened RecordStore
  import opened FilterFraming
  import opened SyncCache

  datatype Logs = Logs(headers: seq<Bytes>, filterHeaders: seq<Bytes>, filters: seq<Bytes>)

  const EMPTY: Logs := Logs([], [], [])

  function Log(l: Logs, stream: nat): seq<Bytes> {
    if stream == 0 then l.headers else if stream == 1 then l.filterHeaders else l.filters
  }

  function Extended(l: Logs, stream: nat, p: Bytes): Logs {
    if stream == 0 then l.(headers := l.headers + [p])
    else if stream == 1 then l.(filterHeaders := l.filterHeaders + [p])
    else l.(filters := l.filters + [p])
  }

  function CountsOf(l: Logs): Counts {
    Counts(|l.headers|, |l.filterHeaders|, |l.filters|)
  }

  function Sum(s: seq<Bytes>): nat
    decreases |s|
  {
    if s == [] then 0 else Sum(s[..|s| - 1]) + |s[|s| - 1]|
  }

  function Total(l: Logs): nat {
    Sum(l.headers) + Sum(l.filterHeaders) + Sum(l.filters)
  }

  lemma ExtendedTotal(l: Logs, stream: nat, p: Bytes)
    ensures Total(Extended(l, stream, p)) == Total(l) + |p|
    ensures stream < 3 ==> CountsOf(Extended(l, stream, p)) == With(CountsOf(l), stream, At(CountsOf(l), stream) + 1)
  {
    var s := Log(l, stream);
    assert (s + [p])[..|s|] == s;
  }

  // ---- How a log is stored -----------------------------------------------------------------------

  ghost predicate ChunkStored(t: Rows, ns: Namespace, stream: nat, index: nat, p: Bytes, c: nat)
    requires c < ChunkCount(|p|)
  {
    var k := ChunkKey(ns, stream, index, c);
    k in t && t[k].value == ChunkRow(ns, stream, index, c, ChunkOf(p, c))
  }

  /** A payload that the stream accepts. */
  predicate Admissible(stream: nat, p: Bytes) {
    stream < 3 && 0 < |p| <= MAX_BATCH_BYTES && Deserialize(stream, p).Some?
  }

  ghost predicate BatchStored(t: Rows, ns: Namespace, stream: nat, index: nat, p: Bytes) {
    && Admissible(stream, p)
    && BatchKey(ns, stream, index) in t && t[BatchKey(ns, stream, index)].value == BatchRow(ns, stream, index, |p|, p)
    && forall c | 0 <= c < ChunkCount(|p|) :: ChunkStored(t, ns, stream, index, p, c)
  }

  /** A record of the namespace belongs to the head or to a batch of a log. */
  predicate Owned(k: Key, l: Logs) {
    match k
    case HeadKey(_) => true
    case BatchKey(_, stream, index) => stream < 3 && index < |Log(l, stream)|
    case ChunkKey(_, stream, index, _) => stream < 3 && index < |Log(l, stream)|
    case RecoveryKey => true
  }

  ghost predicate HeadStored(t: Rows, ns: Namespace, l: Logs) {
    if HeadKey(ns) in t then t[HeadKey(ns)].value == Head(ns, CountsOf(l), Total(l))
    else l == EMPTY && forall k | k in t :: !InNamespace(k, ns)
  }

  /** The namespace holds exactly these logs, and the head's counts and bytes are theirs. */
  ghost predicate WellStored(t: Rows, ns: Namespace, l: Logs) {
    && HeadStored(t, ns, l)
    && WithinLimit(CountsOf(l)) && Total(l) <= MAX_CACHE_BYTES
    && (forall s: nat, i: nat | s < 3 && i < |Log(l, s)| :: BatchStored(t, ns, s, i, Log(l, s)[i]))
    && (forall k | k in t && InNamespace(k, ns) :: Owned(k, l))
  }

  // ---- Reading --------------------------------------------------------------------------------------

  lemma {:induction false} ChunksRead(t: Rows, ns: Namespace, stream: nat, index: nat, p: Bytes, n: nat)
    requires n <= ChunkCount(|p|) && forall c | 0 <= c < ChunkCount(|p|) :: ChunkStored(t, ns, stream, index, p, c)
    ensures ReadChunks(t, ns, stream, index, |p|, n) == Some(p[..Smaller(n * CHUNK_BYTES, |p|)])
    decreases n
  {
    if n != 0 {
      ChunksRead(t, ns, stream, index, p, n - 1);
      assert ChunkStored(t, ns, stream, index, p, n - 1);
      var a, b := (n - 1) * CHUNK_BYTES, Smaller(n * CHUNK_BYTES, |p|);
      assert a < |p| && p[..a] + p[a..b] == p[..b];
    }
  }

  lemma PayloadRead(t: Rows, ns: Namespace, stream: nat, index: nat, p: Bytes)
    requires BatchStored(t, ns, stream, index, p)
    ensures ReadPayload(t, ns, stream, index) == Some(p)
  {
    hide Deserialize; hide ChunkStored;
    ChunksRead(t, ns, stream, index, p, ChunkCount(|p|));
    hide ReadChunks;
    assert Smaller(ChunkCount(|p|) * CHUNK_BYTES, |p|) == |p|;
    assert p[..|p|] == p;
  }

  lemma HeadRead(t: Rows, ns: Namespace, l: Logs)
    requires WellStored(t, ns, l)
    ensures HeadFor(t, ns) == Ok(HeadInfo(Revision(t, HeadKey(ns)), CountsOf(l), Total(l)))
  {
    if HeadKey(ns) !in t { assert NamespaceRows(t, ns) == {}; }
  }

  /** Every read returns the batch of the log at that index, or nothing past its end. */
  lemma ReadsLog(t: Rows, ns: Namespace, l: Logs, stream: nat, index: nat)
    requires WellStored(t, ns, l) && stream < 3
    ensures ReadAt(t, ns, stream, index) == Ok(if index < |Log(l, stream)| then Some(Log(l, stream)[index]) else None)
  {
    HeadRead(t, ns, l);
    hide HeadFor; hide ReadPayload;
    if index < |Log(l, stream)| {
      assert BatchStored(t, ns, stream, index, Log(l, stream)[index]);
      PayloadRead(t, ns, stream, index, Log(l, stream)[index]);
    }
  }

  /** Through a retired epoch a read sees the kept prefix of the base logs, then the logs of the epoch. */
  lemma ReadsSplitLog(t: Rows, h: Handle, base: Logs, suffix: Logs, stream: nat, index: nat)
    requires h.epoch > 0 && WellStored(t, Base, base) && WellStored(t, Epoch(h.epoch), suffix) && stream < 3
    requires At(h.prefix, stream) <= |Log(base, stream)|
    ensures var whole := Log(base, stream)[..At(h.prefix, stream)] + Log(suffix, stream);
            ReadBatch(t, h, stream, index) == Ok(if index < |whole| then Some(whole[index]) else None)
  {
    var prefix := At(h.prefix, stream);
    hide WellStored; hide ReadAt;
    if index < prefix {
      ReadsLog(t, Base, base, stream, index);
    } else {
      ReadsLog(t, Epoch(h.epoch), suffix, stream, index - prefix);
    }
  }

  // ---- Appending ---------------------------------------------------------------------------------------

  lemma SavesDistinct(ns: Namespace, stream: nat, head: HeadInfo, p: Bytes)
    ensures DistinctSaves(AppendSaves(ns, stream, head, p))
    ensures var saves := AppendSaves(ns, stream, head, p);
            && saves[0].id == HeadKey(ns) && saves[1].id == BatchKey(ns, stream, At(head.counts, stream))
            && forall c | 0 <= c < ChunkCount(|p|) :: saves[2 + c] == ChunkSave(ns, stream, At(head.counts, stream), p, c)
  {
  }

  /** The saves of an append are accepted: nothing is stored yet where the batch goes. */
  lemma AppendApplies(t: Rows, ns: Namespace, l: Logs, stream: nat, p: Bytes)
    requires WellStored(t, ns, l) && stream < 3
    ensures var head := HeadInfo(Revision(t, HeadKey(ns)), CountsOf(l), Total(l));
            var saves := AppendSaves(ns, stream, head, p);
            DistinctSaves(saves) && ApplyBatch(t, saves, []) == Ok(Written(t, saves))
  {
    var head := HeadInfo(Revision(t, HeadKey(ns)), CountsOf(l), Total(l));
    var saves := AppendSaves(ns, stream, head, p);
    SavesDistinct(ns, stream, head, p);
    var index := |Log(l, stream)|;
    forall i | 0 <= i < |saves| ensures Revision(t, saves[i].id) == saves[i].expected {
      if i == 1 {
        assert !Owned(BatchKey(ns, stream, index), l);
      } else if i > 1 {
        assert saves[i] == ChunkSave(ns, stream, index, p, i - 2);
        assert !Owned(ChunkKey(ns, stream, index, i - 2), l);
      }
    }
    SavesApply(t, saves);
  }

  ghost predicate OthersKept(t: Rows, after: Rows, ns: Namespace, stream: nat, n: nat) {
    forall k | !NewKey(ns, stream, n, k) :: SameRow(t, after, k)
  }

  /** What an append leaves: the advanced head, the new batch with its chunks, and every other row as it was. */
  ghost predicate Appended(t: Rows, after: Rows, ns: Namespace, l: Logs, stream: nat, p: Bytes) {
    var n := |Log(l, stream)|;
    && HeadKey(ns) in after
    && after[HeadKey(ns)].value == Head(ns, With(CountsOf(l), stream, n + 1), Total(l) + |p|)
    && BatchKey(ns, stream, n) in after && after[BatchKey(ns, stream, n)].value == BatchRow(ns, stream, n, |p|, p)
    && (forall c | 0 <= c < ChunkCount(|p|) :: ChunkStored(after, ns, stream, n, p, c))
    && OthersKept(t, after, ns, stream, n)
  }

  lemma AppendedRows(t: Rows, ns: Namespace, l: Logs, stream: nat, p: Bytes, after: Rows)
    requires stream < 3
    requires var saves := AppendSaves(ns, stream, HeadInfo(Revision(t, HeadKey(ns)), CountsOf(l), Total(l)), p);
             DistinctSaves(saves) && after == Written(t, saves)
    ensures Appended(t, after, ns, l, stream, p)
  {
    hide Written; hide Total;
    var head := HeadInfo(Revision(t, HeadKey(ns)), CountsOf(l), Total(l));
    var saves := AppendSaves(ns, stream, head, p);
    SavesDistinct(ns, stream, head, p);
    var index := |Log(l, stream)|;
    assert saves[0] == Save(HeadKey(ns), head.revision, Head(ns, With(CountsOf(l), stream, index + 1), Total(l) + |p|));
    assert saves[1] == Save(BatchKey(ns, stream, index), 0, BatchRow(ns, stream, index, |p|, p));
    forall c | 0 <= c < ChunkCount(|p|) ensures ChunkStored(after, ns, stream, index, p, c) {
      assert saves[2 + c] == ChunkSave(ns, stream, index, p, c);
    }
    forall i | 0 <= i < |saves| ensures NewKey(ns, stream, index, saves[i].id) {
      if i >= 2 { assert saves[i] == ChunkSave(ns, stream, index, p, i - 2); }
    }
    hide AppendSaves;
    forall k | !NewKey(ns, stream, index, k) ensures SameRow(t, after, k) {
      assert forall i | 0 <= i < |saves| :: saves[i].id != k;
    }
  }

  predicate NewKey(ns: Namespace, stream: nat, index: nat, k: Key) {
    match k
    case HeadKey(n) => n == ns
    case BatchKey(n, s, i) => n == ns && s == stream && i == index
    case ChunkKey(n, s, i, _) => n == ns && s == stream && i == index
    case RecoveryKey => false
  }

  /** A batch that was stored stays stored. */
  lemma StillStored(t: Rows, after: Rows, ns: Namespace, stream: nat, n: nat, s: nat, i: nat, q: Bytes)
    requires BatchStored(t, ns, s, i, q) && (s != stream || i != n)
    requires OthersKept(t, after, ns, stream, n)
    ensures BatchStored(after, ns, s, i, q)
  {
    hide Admissible;
    assert SameRow(t, after, BatchKey(ns, s, i));
    forall c | 0 <= c < ChunkCount(|q|) ensures ChunkStored(after, ns, s, i, q, c) {
      assert ChunkStored(t, ns, s, i, q, c);
      assert SameRow(t, after, ChunkKey(ns, s, i, c));
    }
  }

  lemma BatchesStored(t: Rows, ns: Namespace, l: Logs, stream: nat, p: Bytes, after: Rows)
    requires WellStored(t, ns, l) && Admissible(stream, p) && Appended(t, after, ns, l, stream, p)
    ensures var l' := Extended(l, stream, p);
            forall s: nat, i: nat | s < 3 && i < |Log(l', s)| :: BatchStored(after, ns, s, i, Log(l', s)[i])
  {
    hide Admissible; hide Total;
    AdmissibleSize(stream, p);
    var l', n := Extended(l, stream, p), |Log(l, stream)|;
    assert BatchStored(after, ns, stream, n, p);
    hide BatchStored; hide OthersKept;
    forall s: nat, i: nat | s < 3 && i < |Log(l', s)| ensures BatchStored(after, ns, s, i, Log(l', s)[i]) {
      if s == stream && i == n {
        assert Log(l', s)[i] == p;
      } else {
        assert Log(l', s)[i] == Log(l, s)[i];
        assert BatchStored(t, ns, s, i, Log(l, s)[i]);
        StillStored(t, after, ns, stream, n, s, i, Log(l, s)[i]);
      }
    }
  }

  lemma KeysOwned(t: Rows, ns: Namespace, l: Logs, stream: nat, p: Bytes, after: Rows)
    requires WellStored(t, ns, l) && stream < 3 && Appended(t, after, ns, l, stream, p)
    ensures forall k | k in after && InNamespace(k, ns) :: Owned(k, Extended(l, stream, p))
  {
    hide BatchStored; hide Total; hide HeadStored;
    forall k | k in after && InNamespace(k, ns) ensures Owned(k, Extended(l, stream, p)) {
      if !NewKey(ns, stream, |Log(l, stream)|, k) {
        assert SameRow(t, after, k);
        assert Owned(k, l);
      }
    }
  }

  lemma AppendStores(t: Rows, ns: Namespace, l: Logs, stream: nat, p: Bytes, after: Rows)
    requires WellStored(t, ns, l) && Admissible(stream, p) && Appended(t, after, ns, l, stream, p)
    requires Total(l) + |p| <= MAX_NEW_CACHE_BYTES && |Log(l, stream)| < MAX_STREAM_BATCHES
    ensures WellStored(after, ns, Extended(l, stream, p))
  {
    BatchesStored(t, ns, l, stream, p, after);
    KeysOwned(t, ns, l, stream, p, after);
    ExtendedTotal(l, stream, p);
    hide Total; hide BatchStored; hide OthersKept; hide Owned; hide Admissible; hide Extended;
  }

  function HeadOf(t: Rows, ns: Namespace, l: Logs): HeadInfo {
    HeadInfo(Revision(t, HeadKey(ns)), CountsOf(l), Total(l))
  }

  lemma AppendIs(t: Rows, h: Handle, l: Logs, stream: nat, p: Bytes) returns (after: Rows)
    requires !h.retired && WellStored(t, NamespaceOf(h.epoch), l) && stream < 3 && |p| <= MAX_BATCH_BYTES
    ensures Append(t, h, stream, p) == Ok(if Fits(HeadOf(t, NamespaceOf(h.epoch), l), stream, p) then after else t)
    ensures Appended(t, after, NamespaceOf(h.epoch), l, stream, p)
  {
    var ns := NamespaceOf(h.epoch);
    HeadRead(t, ns, l);
    AppendApplies(t, ns, l, stream, p);
    hide HeadFor; hide ApplyBatch; hide AppendSaves; hide WellStored; hide Written; hide Total; hide Fits; hide Appended;
    after := Written(t, AppendSaves(ns, stream, HeadOf(t, ns, l), p));
    AppendedRows(t, ns, l, stream, p, after);
  }

  /**
   An append either changes nothing, when the batch does not fit, or adds exactly
   that batch at the end of its stream. Other namespaces are not touched.
   */
  lemma AppendRefines(t: Rows, h: Handle, l: Logs, stream: nat, p: Bytes)
    requires !h.retired && WellStored(t, NamespaceOf(h.epoch), l) && Admissible(stream, p)
    ensures var fits := Total(l) + |p| <= MAX_NEW_CACHE_BYTES && |Log(l, stream)| < MAX_STREAM_BATCHES;
            && Append(t, h, stream, p).Ok?
            && (!fits ==> Append(t, h, stream, p).value == t)
            && (fits ==> WellStored(Append(t, h, stream, p).value, NamespaceOf(h.epoch), Extended(l, stream, p)))
            && (forall k | !InNamespace(k, NamespaceOf(h.epoch)) :: SameRow(t, Append(t, h, stream, p).value, k))
  {
    hide WellStored; hide Admissible; hide Total; hide Append;
    var ns := NamespaceOf(h.epoch);
    AdmissibleSize(stream, p);
    var after := AppendIs(t, h, l, stream, p);
    if Fits(HeadOf(t, ns, l), stream, p) {
      AppendStores(t, ns, l, stream, p, after);
      forall k | !InNamespace(k, ns) ensures SameRow(t, after, k) {
        assert !NewKey(ns, stream, |Log(l, stream)|, k);
      }
    }
  }

  lemma AdmissibleSize(stream: nat, p: Bytes)
    requires Admissible(stream, p)
    ensures stream < 3 && |p| <= MAX_BATCH_BYTES
  {
  }

  // ---- Whole runs of appends ---------------------------------------------------------------------------

  datatype Offer = Offer(stream: nat, payload: Bytes)

  predicate Room(l: Logs, o: Offer) {
    Total(l) + |o.payload| <= MAX_NEW_CACHE_BYTES && |Log(l, o.stream)| < MAX_STREAM_BATCHES
  }

  /** The logs after the offers: each one that has room when it comes. */
  function Kept(offers: seq<Offer>): Logs
    decreases |offers|
  {
    if offers == [] then EMPTY
    else
      var before, o := Kept(offers[..|offers| - 1]), offers[|offers| - 1];
      if Room(before, o) then Extended(before, o.stream, o.payload) else before
  }

  function AppendAll(t: Rows, h: Handle, offers: seq<Offer>): Result<Rows, Error>
    decreases |offers|
  {
    if offers == [] then Ok(t)
    else
      match AppendAll(t, h, offers[..|offers| - 1])
      case Err(e) => Err(e)
      case Ok(before) => Append(before, h, offers[|offers| - 1].stream, offers[|offers| - 1].payload)
  }

  /** From an empty namespace, every run of appends stores exactly the logs kept. */
  lemma {:induction false} RunRefines(t: Rows, h: Handle, offers: seq<Offer>)
    requires !h.retired && (forall k | k in t :: !InNamespace(k, NamespaceOf(h.epoch)))
    requires forall i | 0 <= i < |offers| :: Admissible(offers[i].stream, offers[i].payload)
    ensures AppendAll(t, h, offers).Ok? && WellStored(AppendAll(t, h, offers).value, NamespaceOf(h.epoch), Kept(offers))
    decreases |offers|
  {
    hide Append; hide Admissible;
    if offers != [] {
      var o := offers[|offers| - 1];
      assert Admissible(o.stream, o.payload);
      RunRefines(t, h, offers[..|offers| - 1]);
      hide WellStored;
      AppendRefines(AppendAll(t, h, offers[..|offers| - 1]).value, h, Kept(offers[..|offers| - 1]), o.stream, o.payload);
    }
  }

  // ---- Is a stream a prefix of what was offered? -----------------------------------------------------------

  function Offered(offers: seq<Offer>, stream: nat): seq<Bytes>
    decreases |offers|
  {
    if offers == [] then []
    else
      var before, o := Offered(offers[..|offers| - 1], stream), offers[|offers| - 1];
      if o.stream == stream then before + [o.payload] else before
  }

  /** The `i`th offer found room. */
  predicate Stays(offers: seq<Offer>, i: nat)
    requires i < |offers|
  {
    Room(Kept(offers[..i]), offers[i])
  }

  /** No batch of the stream finds room after one that did not. */
  ghost predicate NoLateFit(offers: seq<Offer>, stream: nat) {
    forall i, j | 0 <= i < j < |offers| && offers[i].stream == stream && offers[j].stream == stream ::
      Stays(offers, j) ==> Stays(offers, i)
  }

  ghost predicate AllStay(offers: seq<Offer>, stream: nat) {
    forall i | 0 <= i < |offers| && offers[i].stream == stream :: Stays(offers, i)
  }

  /** A first dropped batch stands where the log ends, and it is too long for what is left. */
  ghost predicate Blocked(offers: seq<Offer>, stream: nat) {
    var log, offered := Log(Kept(offers), stream), Offered(offers, stream);
    && |log| < |offered| && log == offered[..|log|]
    && (Total(Kept(offers)) + |offered[|log|]| > MAX_NEW_CACHE_BYTES || |log| >= MAX_STREAM_BATCHES)
  }

  ghost predicate Differs(a: seq<Bytes>, b: seq<Bytes>) {
    exists k :: 0 <= k < |a| && k < |b| && a[k] != b[k]
  }

  lemma StaysEarlier(offers: seq<Offer>, i: nat)
    requires 0 < |offers| && i < |offers| - 1
    ensures Stays(offers, i) == Stays(offers[..|offers| - 1], i)
  {
    assert offers[..|offers| - 1][..i] == offers[..i];
  }

  lemma LateIsNotAll(offers: seq<Offer>, stream: nat)
    requires !NoLateFit(offers, stream)
    ensures !AllStay(offers, stream)
  {
  }

  lemma {:induction false} StreamStates(offers: seq<Offer>, stream: nat)
    requires stream < 3 && forall i | 0 <= i < |offers| :: offers[i].stream < 3
    ensures AllStay(offers, stream) ==> Log(Kept(offers), stream) == Offered(offers, stream)
    ensures !AllStay(offers, stream) && NoLateFit(offers, stream) ==> Blocked(offers, stream)
    ensures !NoLateFit(offers, stream) ==> Differs(Log(Kept(offers), stream), Offered(offers, stream))
    decreases |offers|
  {
    if offers != [] {
      var n := |offers| - 1;
      var before, o := offers[..n], offers[n];
      StreamStates(before, stream);
      forall i | 0 <= i < n ensures Stays(offers, i) == Stays(before, i) { StaysEarlier(offers, i); }
      hide Kept; hide Offered; hide Stays; hide Blocked; hide Differs;
      if !NoLateFit(before, stream) {
        LateStep(offers, stream);
        assert !AllStay(offers, stream) by { LateIsNotAll(offers, stream); }
      } else if AllStay(before, stream) {
        CleanStep(offers, stream);
      } else {
        BlockedStep(offers, stream);
      }
    }
  }

  /** What the last offer does to a stream's log and to the offers to it. */
  lemma LastOffer(offers: seq<Offer>, stream: nat)
    requires stream < 3 && |offers| > 0 && offers[|offers| - 1].stream < 3
    ensures var n := |offers| - 1;
            var before, o := offers[..n], offers[n];
            && Log(Kept(offers), stream) ==
                 (if o.stream == stream && Stays(offers, n) then Log(Kept(before), stream) + [o.payload]
                  else Log(Kept(before), stream))
            && Offered(offers, stream) == (if o.stream == stream then Offered(before, stream) + [o.payload] else Offered(before, stream))
            && Total(Kept(before)) <= Total(Kept(offers))
  {
    var n := |offers| - 1;
    ExtendedTotal(Kept(offers[..n]), offers[n].stream, offers[n].payload);
    hide Total;
  }

  lemma DiffersStays(a: seq<Bytes>, b: seq<Bytes>, a': seq<Bytes>, b': seq<Bytes>)
    requires Differs(a, b) && a <= a' && b <= b'
    ensures Differs(a', b')
  {
    var k :| 0 <= k < |a| && k < |b| && a[k] != b[k];
    assert a'[k] == a[k] && b'[k] == b[k];
  }

  lemma LateStep(offers: seq<Offer>, stream: nat)
    requires stream < 3 && |offers| > 0 && offers[|offers| - 1].stream < 3
    requires var before := offers[..|offers| - 1];
             !NoLateFit(before, stream) && Differs(Log(Kept(before), stream), Offered(before, stream))
    requires forall i | 0 <= i < |offers| - 1 :: Stays(offers, i) == Stays(offers[..|offers| - 1], i)
    ensures !NoLateFit(offers, stream) && Differs(Log(Kept(offers), stream), Offered(offers, stream))
  {
    var n := |offers| - 1;
    var before := offers[..n];
    LastOffer(offers, stream);
    DiffersStays(Log(Kept(before), stream), Offered(before, stream), Log(Kept(offers), stream), Offered(offers, stream));
    hide Kept; hide Offered; hide Stays;
    var i, j :| 0 <= i < j < n && before[i].stream == stream && before[j].stream == stream && Stays(before, j) && !Stays(before, i);
    assert offers[i].stream == stream && offers[j].stream == stream && Stays(offers, j) && !Stays(offers, i);
  }

  lemma CleanStep(offers: seq<Offer>, stream: nat)
    requires stream < 3 && |offers| > 0 && offers[|offers| - 1].stream < 3
    requires var before := offers[..|offers| - 1];
             AllStay(before, stream) && Log(Kept(before), stream) == Offered(before, stream)
    requires forall i | 0 <= i < |offers| - 1 :: Stays(offers, i) == Stays(offers[..|offers| - 1], i)
    ensures AllStay(offers, stream) ==> Log(Kept(offers), stream) == Offered(offers, stream)
    ensures !AllStay(offers, stream) ==> Blocked(offers, stream)
    ensures NoLateFit(offers, stream)
  {
    var n := |offers| - 1;
    var before, o := offers[..n], offers[n];
    CleanFit(offers, stream);
    LastOffer(offers, stream);
    var log := Log(Kept(before), stream);
    assert Stays(offers, n) == Room(Kept(before), o);
    assert !Stays(offers, n) ==> Kept(offers) == Kept(before);
    hide Offered; hide Kept; hide Stays; hide Total; hide NoLateFit; hide AllStay; hide Log;
    if o.stream == stream && !Stays(offers, n) {
      assert (log + [o.payload])[..|log|] == log && (log + [o.payload])[|log|] == o.payload;
    }
  }

  lemma CleanFit(offers: seq<Offer>, stream: nat)
    requires |offers| > 0 && AllStay(offers[..|offers| - 1], stream)
    requires forall i | 0 <= i < |offers| - 1 :: Stays(offers, i) == Stays(offers[..|offers| - 1], i)
    ensures NoLateFit(offers, stream)
    ensures AllStay(offers, stream) <==> !(offers[|offers| - 1].stream == stream && !Stays(offers, |offers| - 1))
  {
    hide Stays;
    var n := |offers| - 1;
    var before := offers[..n];
    assert forall i | 0 <= i < n :: before[i] == offers[i];
  }

  /** A batch that finds room where a longer one did not makes the log differ from the offers. */
  lemma BlockedBreaks(log: seq<Bytes>, offered: seq<Bytes>, p: Bytes, total: nat)
    requires |log| < |offered| && log == offered[..|log|]
    requires total + |offered[|log|]| > MAX_NEW_CACHE_BYTES || |log| >= MAX_STREAM_BATCHES
    requires total + |p| <= MAX_NEW_CACHE_BYTES && |log| < MAX_STREAM_BATCHES
    ensures Differs(log + [p], offered + [p])
  {
    assert (log + [p])[|log|] == p && (offered + [p])[|log|] == offered[|log|];
  }

  lemma BlockedHolds(log: seq<Bytes>, offered: seq<Bytes>, more: seq<Bytes>)
    requires |log| < |offered| && log == offered[..|log|] && offered <= more
    ensures |log| < |more| && log == more[..|log|] && more[|log|] == offered[|log|]
  {
  }

  lemma LateFit(offers: seq<Offer>, stream: nat)
    requires |offers| > 0 && !AllStay(offers[..|offers| - 1], stream) && NoLateFit(offers[..|offers| - 1], stream)
    requires forall i | 0 <= i < |offers| - 1 :: Stays(offers, i) == Stays(offers[..|offers| - 1], i)
    ensures !AllStay(offers, stream)
    ensures NoLateFit(offers, stream) <==> !(offers[|offers| - 1].stream == stream && Stays(offers, |offers| - 1))
  {
    hide Stays;
    var n := |offers| - 1;
    var before := offers[..n];
    assert forall i | 0 <= i < n :: before[i] == offers[i];
    var d :| 0 <= d < n && before[d].stream == stream && !Stays(before, d);
    assert offers[d].stream == stream && !Stays(offers, d);
  }

  lemma BlockedStep(offers: seq<Offer>, stream: nat)
    requires stream < 3 && |offers| > 0 && offers[|offers| - 1].stream < 3
    requires var before := offers[..|offers| - 1];
             !AllStay(before, stream) && NoLateFit(before, stream) && Blocked(before, stream)
    requires forall i | 0 <= i < |offers| - 1 :: Stays(offers, i) == Stays(offers[..|offers| - 1], i)
    ensures !AllStay(offers, stream)
    ensures NoLateFit(offers, stream) ==> Blocked(offers, stream)
    ensures !NoLateFit(offers, stream) ==> Differs(Log(Kept(offers), stream), Offered(offers, stream))
  {
    var n := |offers| - 1;
    var before, o := offers[..n], offers[n];
    LateFit(offers, stream);
    LastOffer(offers, stream);
    var log, offered := Log(Kept(before), stream), Offered(before, stream);
    assert Stays(offers, n) == Room(Kept(before), o);
    hide Offered; hide Kept; hide Stays; hide Total; hide NoLateFit; hide AllStay; hide Log; hide Differs;
    if o.stream == stream && Stays(offers, n) {
      BlockedBreaks(log, offered, o.payload, Total(Kept(before)));
    } else {
      BlockedHolds(log, offered, Offered(offers, stream));
    }
  }

  /**
   A stream is a prefix of the batches offered to it if and only if no batch of it
   found room after one that did not.
   */
  lemma StreamIsPrefixIff(offers: seq<Offer>, stream: nat)
    requires stream < 3 && forall i | 0 <= i < |offers| :: offers[i].stream < 3
    ensures Log(Kept(offers), stream) <= Offered(offers, stream) <==> NoLateFit(offers, stream)
  {
    StreamStates(offers, stream);
  }

  // ---- A stream that is not a prefix -------------------------------------------------------------------------

  /** A batch of one filter of `n` zero bytes. */
  function OneFilter(n: nat): Batch {
    Filters([Filter(0, seq(32, _ => 0), seq(n, _ => 0))])
  }

  lemma OneFilterSize(n: nat)
    requires n <= 8_388_540
    ensures |Serialize(OneFilter(n))| == 41 + |CompactSize(n)| + n
    ensures Admissible(2, Serialize(OneFilter(n)))
  {
    var fs := OneFilter(n).filters;
    assert fs[1..] == [];
    assert Bound(fs) == n + 64 + Bound(fs[1..]);
    assert Frames(fs) == Framed(Packet(fs[0])) + Frames(fs[1..]);
    SerializeRoundTrip(OneFilter(n));
  }

  function Copies(p: Bytes, n: nat): (r: seq<Offer>)
    ensures |r| == n && forall i | 0 <= i < n :: r[i] == Offer(2, p)
  {
    seq(n, _ => Offer(2, p))
  }

  /** Thirty-two batches of the largest size leave 704 bytes. */
  lemma {:induction false} CopiesFill(p: Bytes, n: nat)
    requires n <= 32 && |p| == 8_388_586
    ensures Total(Kept(Copies(p, n))) == n * 8_388_586 && |Log(Kept(Copies(p, n)), 2)| == n
    decreases n
  {
    if n == 0 {
      assert Copies(p, n) == [];
    } else {
      CopiesFill(p, n - 1);
      var c := Copies(p, n);
      assert c[..n - 1] == Copies(p, n - 1) && c[n - 1] == Offer(2, p);
      var before := Kept(c[..n - 1]);
      ExtendedTotal(before, 2, p);
      hide Total; hide Copies;
      assert Room(before, Offer(2, p));
      assert Kept(c) == Extended(before, 2, p);
    }
  }

  lemma DropThenKeep(first: seq<Offer>, big: Offer, small: Offer)
    requires big.stream == small.stream && !Room(Kept(first), big) && Room(Kept(first), small)
    ensures !NoLateFit(first + [big, small], big.stream)
  {
    hide Room;
    var offers, n := first + [big, small], |first|;
    assert offers[..n] == first && offers[..n + 1] == first + [big] && offers[n] == big && offers[n + 1] == small;
    assert (first + [big])[..n] == first && (first + [big])[n] == big;
    assert Kept(first + [big]) == Kept(first);
    hide Kept;
    assert !Stays(offers, n) && Stays(offers, n + 1);
  }

  /** With 704 bytes left, a batch of 744 bytes is dropped and the next one, of 142, is stored. */
  lemma LaterBatchFits(p: Bytes, big: Bytes, small: Bytes)
    requires |p| == 8_388_586 && |big| == 744 && |small| == 142
    ensures var offers := Copies(p, 32) + [Offer(2, big), Offer(2, small)];
            !(Log(Kept(offers), 2) <= Offered(offers, 2))
  {
    var n := 32;
    CopiesFill(p, n);
    hide Kept; hide Total; hide Offered;
    DropThenKeep(Copies(p, n), Offer(2, big), Offer(2, small));
    hide NoLateFit;
    StreamIsPrefixIff(Copies(p, n) + [Offer(2, big), Offer(2, small)], 2);
  }

  lemma SizesOccur(full: nat, large: nat, little: nat)
    requires full == 8_388_540 && large == 700 && little == 100
    ensures |Serialize(OneFilter(full))| == 8_388_586 && |Serialize(OneFilter(large))| == 744 && |Serialize(OneFilter(little))| == 142
  {
    hide OneFilter; hide Serialize; hide Admissible;
    OneFilterSize(full);
    OneFilterSize(large);
    OneFilterSize(little);
  }

  lemma AllAdmissible(p: Bytes, big: Bytes, small: Bytes, n: nat)
    requires Admissible(2, p) && Admissible(2, big) && Admissible(2, small)
    ensures var offers := Copies(p, n) + [Offer(2, big), Offer(2, small)];
            forall i | 0 <= i < |offers| :: Admissible(offers[i].stream, offers[i].payload)
  {
    hide Admissible;
  }

  lemma NotAPrefixFor(full: nat, large: nat, little: nat) returns (offers: seq<Offer>)
    requires full == 8_388_540 && large == 700 && little == 100
    ensures forall i | 0 <= i < |offers| :: Admissible(offers[i].stream, offers[i].payload)
    ensures !(Log(Kept(offers), 2) <= Offered(offers, 2))
  {
    hide OneFilter; hide Serialize; hide Kept; hide Offered; hide Admissible; hide Copies; hide CompactSize;
    SizesOccur(full, large, little);
    OneFilterSize(full);
    OneFilterSize(large);
    OneFilterSize(little);
    var p, big, small := Serialize(OneFilter(full)), Serialize(OneFilter(large)), Serialize(OneFilter(little));
    LaterBatchFits(p, big, small);
    AllAdmissible(p, big, small, 32);
    offers := Copies(p, 32) + [Offer(2, big), Offer(2, small)];
  }

  /** One-filter batches of these very sizes exist, so a stream is not always a prefix of what was offered to it. */
  lemma StreamIsNotAlwaysAPrefix() returns (offers: seq<Offer>)
    ensures forall i | 0 <= i < |offers| :: Admissible(offers[i].stream, offers[i].payload)
    ensures !(Log(Kept(offers), 2) <= Offered(offers, 2))
  {
    hide Kept; hide Offered; hide Admissible;
    offers := NotAPrefixFor(8_388_540, 700, 100);
  }
}
