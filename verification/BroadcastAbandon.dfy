/**
 Expiry of recovery packages: from every expired, never attempted funding
 transaction, walk back through never attempted parents and drop them all in one
 batch.
 */
module BroadcastAbandon {
  import opened RecordStore
  import opened Broadcast
  import opened BroadcastOrder
  import opened BroadcastJournal

  function RawInputs(rows: Rows, id: nat): seq<nat>
    requires id in rows && rows[id].value.raw.Some?
  {
    InputTxids(rows[id].value.raw.value.inputs)
  }

  /** Approved, never attempted and not on the chain. */
  predicate Untouched(rows: Rows, id: nat) {
    Abandonable(rows, id) && rows[id].value.raw.Some?
  }

  predicate ExpiredFinal(rows: Rows, now: nat, id: nat) {
    && Untouched(rows, id)
    && now >= rows[id].value.broadcast.value.expiresAt
    && IsRecoverableFunding(rows[id].value.raw.value)
  }

  /** From an expired funding transaction, parent by parent, through untouched ones. */
  ghost predicate DoomPath(rows: Rows, now: nat, path: seq<nat>) {
    && |path| > 0
    && ExpiredFinal(rows, now, path[0])
    && (forall i | 0 <= i < |path| :: Untouched(rows, path[i]))
    && (forall i | 0 <= i < |path| - 1 :: path[i + 1] in RawInputs(rows, path[i]))
  }

  ghost predicate Doomed(rows: Rows, now: nat, id: nat) {
    exists path :: DoomPath(rows, now, path) && path[|path| - 1] == id
  }

  /** The dropped records, one revision up, and every other record as it was. */
  ghost predicate Abandoned(rows: Rows, now: nat, after: Rows) {
    && after.Keys == rows.Keys
    && forall id | id in rows :: after[id] == DropRow(rows, now, id)
  }

  ghost function DropRow(rows: Rows, now: nat, id: nat): Stored<Record>
    requires id in rows
  {
    if Doomed(rows, now, id) then Stored(rows[id].revision + 1, Dropped(rows[id].value, now)) else rows[id]
  }

  /** What the records must satisfy before anything is dropped. */
  ghost predicate Sound(rows: Rows) {
    forall id | id in rows :: SoundRow(rows, id)
  }

  predicate SoundRow(rows: Rows, id: nat)
    requires id in rows
  {
    Valid(rows[id].value) && rows[id].value.txid == id
  }

  ghost predicate OneNetwork(rows: Rows, network: int) {
    forall id | id in rows :: OnNetwork(rows, network, id)
  }

  predicate OnNetwork(rows: Rows, network: int, id: nat)
    requires id in rows
  {
    rows[id].value.broadcast.Some? ==> rows[id].value.broadcast.value.network == network
  }

  ghost predicate OnlyPublications(rows: Rows, now: nat) {
    forall id | Doomed(rows, now, id) :: IsPublication(rows[id].value.raw.value)
  }

  // ---- The walk -----------------------------------------------------------------------

  lemma DoomedFinal(rows: Rows, now: nat, id: nat)
    requires ExpiredFinal(rows, now, id)
    ensures Doomed(rows, now, id)
  {
    assert DoomPath(rows, now, [id]);
  }

  lemma DoomedParent(rows: Rows, now: nat, id: nat, p: nat)
    requires Doomed(rows, now, id) && Untouched(rows, id) && p in RawInputs(rows, id) && Untouched(rows, p)
    ensures Doomed(rows, now, p)
  {
    var path :| DoomPath(rows, now, path) && path[|path| - 1] == id;
    var longer := path + [p];
    forall i | 0 <= i < |longer| - 1 ensures longer[i + 1] in RawInputs(rows, longer[i]) {
      if i < |path| - 1 { assert path[i + 1] in RawInputs(rows, path[i]); }
    }
    assert DoomPath(rows, now, longer);
  }

  lemma DoomedIsUntouched(rows: Rows, now: nat, id: nat)
    requires Doomed(rows, now, id)
    ensures Untouched(rows, id)
  {
  }

  /** The walk so far: sound, closed under untouched parents up to what is pending, and from every expired final. */
  ghost predicate Walking(rows: Rows, now: nat, gone: set<nat>, pending: seq<nat>) {
    && (forall id | id in gone :: Doomed(rows, now, id) && IsPublication(rows[id].value.raw.value))
    && (forall p | p in pending && Untouched(rows, p) :: Doomed(rows, now, p))
    && (forall id | id in rows && ExpiredFinal(rows, now, id) :: id in gone || id in pending)
    && (forall id | id in gone :: forall p | p in RawInputs(rows, id) && Untouched(rows, p) :: p in gone || p in pending)
  }

  lemma {:induction false} PathIsGone(rows: Rows, now: nat, gone: set<nat>, path: seq<nat>)
    requires Walking(rows, now, gone, []) && DoomPath(rows, now, path)
    ensures path[|path| - 1] in gone
    decreases |path|
  {
    if |path| > 1 {
      var shorter := path[..|path| - 1];
      forall i | 0 <= i < |shorter| - 1 ensures shorter[i + 1] in RawInputs(rows, shorter[i]) {
        assert path[i + 1] in RawInputs(rows, path[i]);
      }
      PathIsGone(rows, now, gone, shorter);
      assert path[|path| - 2 + 1] in RawInputs(rows, path[|path| - 2]);
    }
  }

  lemma WalkDone(rows: Rows, now: nat, gone: set<nat>)
    requires Walking(rows, now, gone, [])
    ensures forall id :: id in gone <==> Doomed(rows, now, id)
    ensures OnlyPublications(rows, now)
  {
    forall id | Doomed(rows, now, id) ensures id in gone {
      var path :| DoomPath(rows, now, path) && path[|path| - 1] == id;
      PathIsGone(rows, now, gone, path);
    }
  }

  lemma WalkSkip(rows: Rows, now: nat, gone: set<nat>, pending: seq<nat>)
    requires pending != [] && Walking(rows, now, gone, pending)
    requires pending[0] in gone || !Untouched(rows, pending[0])
    ensures Walking(rows, now, gone, pending[1..])
  {
    hide Doomed; hide IsPublication;
    assert pending == [pending[0]] + pending[1..];
  }

  lemma WalkTake(rows: Rows, now: nat, gone: set<nat>, pending: seq<nat>, more: seq<nat>)
    requires pending != [] && Walking(rows, now, gone, pending)
    requires Untouched(rows, pending[0]) && IsPublication(rows[pending[0]].value.raw.value)
    requires forall p :: p in more <==> p in RawInputs(rows, pending[0]) && p in rows
    ensures Walking(rows, now, gone + {pending[0]}, pending[1..] + more)
  {
    hide Doomed; hide IsPublication;
    var id := pending[0];
    assert pending == [id] + pending[1..];
    assert Doomed(rows, now, id);
    forall p | p in more && Untouched(rows, p) ensures Doomed(rows, now, p) {
      DoomedParent(rows, now, id, p);
    }
  }

  /** Breadth first from the expired finals; gives up when it meets a transaction that publishes nothing. */
  method Walk(rows: Rows, now: nat, finals: seq<nat>) returns (r: Option<set<nat>>)
    requires forall id :: id in finals <==> id in rows && ExpiredFinal(rows, now, id)
    ensures r.Some? <==> OnlyPublications(rows, now)
    ensures r.Some? ==> forall id :: id in r.value <==> Doomed(rows, now, id)
  {
    hide Doomed; hide Walking; hide OnlyPublications; hide IsPublication;
    var gone: set<nat> := {};
    var pending := finals;
    WalkStart(rows, now, finals);
    while pending != []
      invariant Walking(rows, now, gone, pending)
      invariant gone <= rows.Keys
      decreases rows.Keys - gone, |pending|
    {
      var id := pending[0];
      if id in gone || !Untouched(rows, id) {
        WalkSkip(rows, now, gone, pending);
        pending := pending[1..];
      } else if !IsPublication(rows[id].value.raw.value) {
        WalkStuck(rows, now, gone, pending);
        return None;
      } else {
        var more := Listed(RawInputs(rows, id), rows.Keys);
        WalkTake(rows, now, gone, pending, more);
        gone := gone + {id};
        pending := pending[1..] + more;
      }
    }
    WalkDone(rows, now, gone);
    r := Some(gone);
  }

  lemma WalkStart(rows: Rows, now: nat, finals: seq<nat>)
    requires forall id :: id in finals <==> id in rows && ExpiredFinal(rows, now, id)
    ensures Walking(rows, now, {}, finals)
  {
    forall p | p in finals ensures Doomed(rows, now, p) {
      DoomedFinal(rows, now, p);
    }
  }

  lemma WalkStuck(rows: Rows, now: nat, gone: set<nat>, pending: seq<nat>)
    requires pending != [] && Walking(rows, now, gone, pending)
    requires Untouched(rows, pending[0]) && !IsPublication(rows[pending[0]].value.raw.value)
    ensures !OnlyPublications(rows, now)
  {
    assert Doomed(rows, now, pending[0]);
  }

  // ---- The batch ------------------------------------------------------------------------

  function DropSave(rows: Rows, now: nat, id: nat): Save<nat, Record>
    requires id in rows
  {
    Save(id, rows[id].revision, Dropped(rows[id].value, now))
  }

  function Drops(rows: Rows, now: nat, ids: seq<nat>): (r: seq<Save<nat, Record>>)
    requires forall id | id in ids :: id in rows
    ensures |r| == |ids| && forall i | 0 <= i < |ids| :: r[i] == DropSave(rows, now, ids[i])
  {
    seq(|ids|, i requires 0 <= i < |ids| => assert ids[i] in ids; DropSave(rows, now, ids[i]))
  }

  lemma DropsApply(rows: Rows, now: nat, ids: seq<nat>)
    requires forall id :: id in ids <==> Doomed(rows, now, id)
    requires forall i, j | 0 <= i < j < |ids| :: ids[i] != ids[j]
    requires forall id | id in ids :: id in rows
    ensures ApplyBatch(rows, Drops(rows, now, ids), []).Ok?
    ensures Abandoned(rows, now, ApplyBatch(rows, Drops(rows, now, ids), []).value)
  {
    hide Doomed; hide Dropped; hide Written;
    var saves := Drops(rows, now, ids);
    forall i | 0 <= i < |saves| ensures saves[i].id in rows && Revision(rows, saves[i].id) == saves[i].expected {
      assert ids[i] in ids;
    }
    SavesApply(rows, saves);
    var after := Written(rows, saves);
    forall id | id in rows ensures id in after && after[id] == DropRow(rows, now, id) {
      if Doomed(rows, now, id) {
        assert id in ids;
        var i :| 0 <= i < |ids| && ids[i] == id;
        assert saves[i] == DropSave(rows, now, id);
      } else {
        forall i | 0 <= i < |saves| ensures saves[i].id != id { assert ids[i] in ids; }
      }
    }
    assert after.Keys == rows.Keys;
  }

  /** Finds the expired funding transactions, after checking every record. */
  method ExpiredFinals(rows: Rows, ids: seq<nat>, network: int, now: nat) returns (r: Result<seq<nat>, Error>)
    requires forall id :: id in ids <==> id in rows
    ensures r == Err(Corrupt) <==> !Sound(rows)
    ensures r == Err(NetworkMismatch) <==> Sound(rows) && !OneNetwork(rows, network)
    ensures r.Ok? || r == Err(Corrupt) || r == Err(NetworkMismatch)
    ensures r.Ok? ==> forall id :: id in r.value <==> id in rows && ExpiredFinal(rows, now, id)
  {
    hide Valid; hide ExpiredFinal;
    var i := 0;
    while i < |ids|
      invariant 0 <= i <= |ids|
      invariant forall k | 0 <= k < i :: SoundRow(rows, ids[k])
    {
      assert ids[i] in ids;
      if !SoundRow(rows, ids[i]) { return Err(Corrupt); }
      i := i + 1;
    }
    var finals: seq<nat> := [];
    i := 0;
    while i < |ids|
      invariant 0 <= i <= |ids|
      invariant forall k | 0 <= k < i :: OnNetwork(rows, network, ids[k])
      invariant forall id :: id in finals <==> id in ids[..i] && ExpiredFinal(rows, now, id)
    {
      assert ids[i] in ids;
      assert ids[..i + 1] == ids[..i] + [ids[i]];
      if !OnNetwork(rows, network, ids[i]) { return Err(NetworkMismatch); }
      if ExpiredFinal(rows, now, ids[i]) { finals := finals + [ids[i]]; }
      i := i + 1;
    }
    assert ids[..i] == ids;
    r := Ok(finals);
  }

  method Members(s: set<nat>) returns (ids: seq<nat>)
    ensures forall id :: id in ids <==> id in s
    ensures forall i, j | 0 <= i < j < |ids| :: ids[i] != ids[j]
    ensures |ids| == |s|
  {
    ids := Ascending(s);
  }

  /**
   `abandon_expired_unattempted_recovery_packages`: drops exactly the doomed
   records in one batch, or changes nothing. It refuses when a record is
   unsound, and when an ordinary approved transaction that was never attempted
   lies under an expired package.
   */
  method AbandonExpired(store: WalletStore<nat, Record>, network: int, now: nat) returns (r: Result<nat, Error>)
    modifies store
    ensures r.Ok? <==> |old(store.table)| <= MAX_TRACKED && Sound(old(store.table))
                       && OneNetwork(old(store.table), network) && OnlyPublications(old(store.table), now)
    ensures r.Ok? ==> Abandoned(old(store.table), now, store.table)
    ensures r.Err? ==> store.table == old(store.table)
  {
    hide Doomed; hide Sound; hide OneNetwork; hide OnlyPublications;
    var rows := store.table;
    if |rows| > MAX_TRACKED { return Err(Capacity); }
    var listed := Members(rows.Keys);
    var finals := ExpiredFinals(rows, listed, network, now);
    if finals.Err? { return Err(finals.error); }
    var gone := Walk(rows, now, finals.value);
    if gone.None? { return Err(Corrupt); }
    var ids := Members(gone.value);
    forall id | id in ids ensures id in rows { DoomedIsUntouched(rows, now, id); }
    DropsApply(rows, now, ids);
    if ids == [] {
      NothingDoomed(rows, now, ids);
      return Ok(0);
    }
    var applied := store.Apply(Drops(rows, now, ids), []);
    r := Ok(|ids|);
  }

  lemma NothingDoomed(rows: Rows, now: nat, ids: seq<nat>)
    requires ids == [] && forall id :: id in ids <==> Doomed(rows, now, id)
    ensures Abandoned(rows, now, rows)
  {
    hide Doomed;
  }

  /** What the walk drops is what expiry may drop of a record. */
  lemma DoomedIsExpirable(rows: Rows, now: nat, id: nat)
    requires OnlyPublications(rows, now) && Doomed(rows, now, id)
    ensures Expirable(rows, id)
  {
    DoomedIsUntouched(rows, now, id);
  }

  // ---- An ordinary transaction under an expired package --------------------------------------------

  /** From the funding's expiry on, an untouched ordinary parent makes every abandonment fail. */
  lemma OrdinaryParentBlocks(rows: Rows, now: nat, later: nat, funding: nat, parent: nat)
    requires ExpiredFinal(rows, now, funding) && now <= later
    requires Untouched(rows, parent) && parent in RawInputs(rows, funding) && !IsPublication(rows[parent].value.raw.value)
    ensures !OnlyPublications(rows, later)
  {
    DoomedFinal(rows, later, funding);
    DoomedParent(rows, later, funding, parent);
  }

  const ORDINARY: Tx := Tx(1, 1, [OutPoint(9, 0)], NoData)
  const CHILD: Tx := Tx(2, 2, [OutPoint(1, 0)], Marker)
  const TERMS: Approval := Approval(0, 5, 10, 100)
  const SEEN: Seen := Seen(Confirmed(7, 7), 1, 0, 0, None)

  /**
   An approved payment is observed although this wallet never sent it; a package
   is funded from its confirmed change; a reorganization takes the payment out.
   */
  const UNDER: seq<Action> := [
    DoApprove(ORDINARY, TERMS, 0, 1, Ok({})), DoReconcile(1, Some(SEEN), 2),
    DoApprove(CHILD, TERMS, 0, 3, Ok({})), DoReconcile(1, None, 4)]

  const PAID: Record := Approved(NewRecord(ORDINARY, TERMS, 1), ORDINARY, TERMS, 1)
  const PAID_SEEN: Record := PAID.(observation := Confirmed(7, 7), lastChanged := 2)
  const FUNDED: Record := Approved(NewRecord(CHILD, TERMS, 3), CHILD, TERMS, 3)
  const UNDER_ROWS: Rows := map[
    1 := Stored(3, PAID_SEEN.(observation := Absent, lastChanged := 4)), 2 := Stored(1, FUNDED)]

  lemma UnderRun()
    ensures Run(World(map[], map[], map[]), UNDER).rows == UNDER_ROWS
    ensures Run(World(map[], map[], map[]), UNDER[..2]).rows == map[1 := Stored(2, PAID_SEEN)]
  {
    var w0 := World(map[], map[], map[]);
    var w1 := World(map[1 := Stored(1, PAID)], map[], map[]);
    var w2 := World(map[1 := Stored(2, PAID_SEEN)], map[], map[]);
    var w3 := World(map[1 := Stored(2, PAID_SEEN), 2 := Stored(1, FUNDED)], map[], map[]);
    var a := UNDER;
    assert Approve(w0.rows, ORDINARY, TERMS, 0, 1, Ok({})) == Ok(w1.rows);
    assert Next(w0, a[0]) == w1;
    assert Next(w1, a[1]) == w2;
    assert Approve(w2.rows, CHILD, TERMS, 0, 3, Ok({})) == Ok(w3.rows);
    assert Next(w2, a[2]) == w3;
    assert Next(w3, a[3]).rows == UNDER_ROWS;
    hide Next;
    assert a[..4] == a && a[..4][..3] == a[..3] && a[..3][..2] == a[..2] && a[..2][..1] == a[..1] && a[..1][..0] == [];
    assert Run(w0, []) == w0;
    assert Run(w0, a[..1]) == w1;
    assert Run(w0, a[..2]) == w2;
    assert Run(w0, a[..3]) == w3;
  }

  /** After that run the expiry of the package can never be carried out, at any later time. */
  lemma OrdinaryAncestorStopsAbandonment(now: nat)
    requires now >= 100
    ensures !OnlyPublications(Run(World(map[], map[], map[]), UNDER).rows, now)
  {
    UnderRun();
    hide Run;
    assert InputTxids(CHILD.inputs) == [1];
    assert ExpiredFinal(UNDER_ROWS, 100, 2) && Untouched(UNDER_ROWS, 1);
    OrdinaryParentBlocks(UNDER_ROWS, 100, now, 2, 1);
  }
}
