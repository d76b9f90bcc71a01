/**
 Reconciling all stored watches: a loop over the store that can stop at any
 watch, be repeated, and end in the same store.
 */
module WatchStore {
  import opened RecordStore
  import opened Watch

  type Watches = Table<nat, Watch>

  datatype Progress = Progress(table: Watches, error: Option<Error>)

  /** The row of one watch after its reconciliation; an unchanged watch is not written. */
  function Row(s: Stored<Watch>, next: Watch): Stored<Watch> {
    if next == s.value then s else Stored(s.revision + 1, next)
  }

  ghost predicate Lists(t: Watches, ids: seq<nat>) {
    && (forall i | 0 <= i < |ids| :: ids[i] in t)
    && (forall i, j | 0 <= i < j < |ids| :: ids[i] != ids[j])
  }

  /** The loop, stopped after `n` watches or at the first error. */
  function UpTo(t: Watches, ids: seq<nat>, n: nat, u: Update): Progress
    requires n <= |ids| && forall i | 0 <= i < |ids| :: ids[i] in t
    decreases n
  {
    if n == 0 then Progress(t, None)
    else
      var before := UpTo(t, ids, n - 1, u);
      if before.error.Some? then before
      else
        var id := ids[n - 1];
        match Reconcile(t[id].value, u)
        case Err(e) => Progress(before.table, Some(e))
        case Ok(next) => Progress(before.table[id := Row(t[id], next)], None)
  }

  // ---- The method ------------------------------------------------------------------------------

  /** Drops what the chain contradicts, then looks for the funding if there is none. */
  method FindFunding(w: Watch, u: Update) returns (r: Result<Watch, Error>, changed: bool)
    ensures r == FoundFunding(w, u)
    ensures r.Ok? ==> changed == (WithoutStale(w, u) != w || r.value != WithoutStale(w, u))
  {
    hide InBlocks;
    changed := false;
    var x := w;
    if x.funding.Some? && Conflicts(u, x.funding.value) {
      x := x.(funding := None, spend := None);
      changed := true;
    } else if x.spend.Some? && Conflicts(u, x.spend.value) {
      x := x.(spend := None);
      changed := true;
    }
    if x.funding.None? {
      var found := Candidates(FundingQuery(x), u.matched, u.tip.height);
      if found.Err? { return Err(found.error), changed; }
      if |found.value| > 1 { return Err(Conflict), changed; }
      if |found.value| == 1 {
        x := x.(funding := Some(found.value[0]));
        changed := true;
      }
    }
    r := Ok(x);
  }

  /** Looks for the spend of a known funding, and keeps the preimage it reveals. */
  method FindSpend(w: Watch, u: Update) returns (r: Result<Watch, Error>, changed: bool)
    ensures r == FoundSpend(w, u)
    ensures r.Ok? ==> changed == (r.value != w)
  {
    hide InBlocks;
    changed := false;
    var x := w;
    if x.spend.None? && x.funding.Some? {
      var found := Candidates(SpendQuery(x, x.funding.value), u.matched, u.tip.height);
      if found.Err? { return Err(found.error), changed; }
      if |found.value| > 1 { return Err(Conflict), changed; }
      if |found.value| == 1 {
        var o := found.value[0];
        if o.preimage.Some? {
          if x.revealed.Some? && x.revealed != o.preimage { return Err(Conflict), changed; }
          x := x.(revealed := o.preimage);
        }
        x := x.(spend := Some(o));
        changed := true;
      }
    }
    r := Ok(x);
  }

  /** Counts confirmations at the tip, moves the scanned checkpoint there and checks the watch. */
  method Settle(w: Watch, u: Update) returns (r: Result<Watch, Error>, changed: bool)
    ensures r == Settled(w, u)
    ensures r.Ok? ==> changed == (r.value != w)
  {
    hide Valid;
    changed := false;
    var x := w;
    if x.funding.Some? {
      var c := Depth(u.tip.height, x.funding.value.height);
      if c.Err? { return Err(c.error), changed; }
      if x.funding.value.confirmations != c.value {
        x := x.(funding := Some(x.funding.value.(confirmations := c.value)));
        changed := true;
      }
    }
    if x.spend.Some? {
      var c := Depth(u.tip.height, x.spend.value.height);
      if c.Err? { return Err(c.error), changed; }
      if x.spend.value.confirmations != c.value {
        x := x.(spend := Some(x.spend.value.(confirmations := c.value)));
        changed := true;
      }
    }
    assert RecountBoth(w, u.tip.height) == Ok(x);
    if x.scanned != u.tip {
      x := x.(scanned := u.tip);
      changed := true;
    }
    if !Valid(x) { return Err(Corrupt), changed; }
    r := Ok(x);
  }

  /** The body of the loop; `changed` says exactly whether the watch has to be saved. */
  method ReconcileOne(w: Watch, u: Update) returns (r: Result<Watch, Error>, changed: bool)
    requires MatchedOnChain(u)
    ensures r == Reconcile(w, u)
    ensures r.Ok? ==> changed == (r.value != w)
  {
    hide FoundFunding; hide FoundSpend; hide Settled; hide MatchedOnChain; hide WithoutStale;
    changed := false;
    var funded, a := FindFunding(w, u);
    if funded.Err? { return funded, a; }
    var spent, b := FindSpend(funded.value, u);
    if spent.Err? { return spent, a || b; }
    var c;
    r, c := Settle(spent.value, u);
    changed := a || b || c;
    if r.Ok? { StableAfter(w, u); }
  }

  /** Every stage leaves a reconciled watch as it is. */
  lemma StableAfter(w: Watch, u: Update)
    requires MatchedOnChain(u) && Reconcile(w, u).Ok?
    ensures var v := Reconcile(w, u).value;
            WithoutStale(v, u) == v && FoundFunding(v, u) == Ok(v) && FoundSpend(v, u) == Ok(v) && Settled(v, u) == Ok(v)
  {
    hide InBlocks; hide MatchedOnChain; hide VerifySpend; hide VerifyFunding;
    var v := Reconcile(w, u).value;
    var funded := FoundFunding(w, u).value;
    var spent := FoundSpend(funded, u).value;
    var kept := WithoutStale(w, u);
    if kept.funding.None? && funded.funding.Some? {
      FoundOnChain(FundingQuery(kept), u, |u.matched|, funded.funding.value);
    }
    if funded.funding.Some? && funded.spend.None? && spent.spend.Some? {
      FoundOnChain(SpendQuery(funded, funded.funding.value), u, |u.matched|, spent.spend.value);
    }
    assert WithoutStale(v, u) == v;
  }

  /** Whatever a scan finds stands in a matched block, so it does not conflict. */
  lemma {:induction false} FoundOnChain(q: Query, u: Update, n: nat, o: Observation)
    requires MatchedOnChain(u) && n <= |u.matched|
    requires InBlocks(q, u.matched, n, u.tip.height).Ok? && o in InBlocks(q, u.matched, n, u.tip.height).value
    ensures o.height in u.checkpoints && u.checkpoints[o.height] == o.block
    decreases n
  {
    hide Touches; hide VerifySpend; hide VerifyFunding;
    if n != 0 {
      var m := u.matched[n - 1];
      if o in InBlocks(q, u.matched, n - 1, u.tip.height).value {
        FoundOnChain(q, u, n - 1, o);
      } else {
        FoundInBlock(q, m, |m.block.txs|, u.tip.height, o);
      }
    }
  }

  lemma {:induction false} FoundInBlock(q: Query, m: Matched, k: nat, tip: nat, o: Observation)
    requires k <= |m.block.txs| && InBlock(q, m, k, tip).Ok? && o in InBlock(q, m, k, tip).value
    ensures o.height == m.height && o.block == m.block
    decreases k
  {
    hide Touches; hide VerifySpend; hide VerifyFunding;
    if k != 0 && o in InBlock(q, m, k - 1, tip).value {
      FoundInBlock(q, m, k - 1, tip, o);
    }
  }

  ghost predicate AllValid(t: Watches) {
    forall id | id in t :: Valid(t[id].value)
  }

  method LoadWatches(t: Watches) returns (ids: seq<nat>, ok: bool)
    ensures Lists(t, ids) && |ids| == |t| && forall id | id in t :: id in ids
    ensures ok <==> AllValid(t)
  {
    hide Valid;
    ids := Ascending(t.Keys);
    var i := 0;
    while i < |ids|
      invariant 0 <= i <= |ids|
      invariant forall k | 0 <= k < i :: Valid(t[ids[k]].value)
    {
      if !Valid(t[ids[i]].value) { return ids, false; }
      i := i + 1;
    }
    ok := true;
  }

  /** The loop has done its first `i` watches and left the others alone. */
  ghost predicate Doing(t: Watches, ids: seq<nat>, i: nat, u: Update, table: Watches)
    requires i <= |ids| && Lists(t, ids)
  {
    && UpTo(t, ids, i, u) == Progress(table, None)
    && (forall k | i <= k < |ids| :: ids[k] in table && table[ids[k]] == t[ids[k]])
  }

  lemma DoOne(t: Watches, ids: seq<nat>, i: nat, u: Update, table: Watches)
    requires i < |ids| && Lists(t, ids) && Doing(t, ids, i, u, table)
    ensures Reconcile(t[ids[i]].value, u).Err? ==>
              UpTo(t, ids, |ids|, u) == Progress(table, Some(Reconcile(t[ids[i]].value, u).error))
    ensures Reconcile(t[ids[i]].value, u).Ok? ==>
              Doing(t, ids, i + 1, u, table[ids[i] := Row(t[ids[i]], Reconcile(t[ids[i]].value, u).value)])
  {
    hide Reconcile;
    if Reconcile(t[ids[i]].value, u).Err? { StopsHere(t, ids, i + 1, |ids|, u); }
  }

  /**
   `reconcile_bitcoin_htlc_watches`: checks the update and every stored watch,
   then updates the watches one after another, saving those that changed.
   */
  method ReconcileWatches(store: WalletStore<nat, Watch>, u: Update) returns (r: Result<(), Error>, ghost ids: seq<nat>)
    modifies store
    ensures Lists(old(store.table), ids)
    ensures forall id | id in old(store.table) :: id in ids
    ensures var sane := Checks(u) && MatchedOnChain(u) && |old(store.table)| <= MAX_WATCHES && AllValid(old(store.table));
            && (!sane ==> r.Err? && store.table == old(store.table))
            && (sane ==>
                  var done := UpTo(old(store.table), ids, |ids|, u);
                  store.table == done.table && r == (if done.error.Some? then Err(done.error.value) else Ok(())))
  {
    hide Reconcile; hide Valid; hide AllValid; hide Doing; hide MatchedOnChain;
    var t := store.table;
    var list, ok := LoadWatches(t);
    ids := list;
    if !Checks(u) { return Err(InvalidCheckpoint), ids; }
    if !MatchedOnChain(u) { return Err(InvalidBlockEvidence), ids; }
    if |list| > MAX_WATCHES { return Err(Capacity), ids; }
    if !ok { return Err(Corrupt), ids; }
    DoNone(t, list, u);
    var i := 0;
    while i < |list|
      invariant 0 <= i <= |list|
      invariant Doing(t, list, i, u, store.table)
    {
      var id := list[i];
      var next, changed := ReconcileOne(t[id].value, u);
      DoOne(t, list, i, u, store.table);
      if next.Err? { return Err(next.error), ids; }
      NotYet(t, list, i, u, store.table);
      if changed {
        var saved := store.SaveOne(id, t[id].revision, next.value);
      } else {
        assert store.table[id := t[id]] == store.table;
      }
      i := i + 1;
    }
    Done(t, list, u, store.table);
    r := Ok(());
  }

  lemma DoNone(t: Watches, ids: seq<nat>, u: Update)
    requires Lists(t, ids)
    ensures Doing(t, ids, 0, u, t)
  {
  }

  lemma NotYet(t: Watches, ids: seq<nat>, i: nat, u: Update, table: Watches)
    requires i < |ids| && Lists(t, ids) && Doing(t, ids, i, u, table)
    ensures ids[i] in table && table[ids[i]] == t[ids[i]]
  {
  }

  lemma Done(t: Watches, ids: seq<nat>, u: Update, table: Watches)
    requires Lists(t, ids) && Doing(t, ids, |ids|, u, table)
    ensures UpTo(t, ids, |ids|, u) == Progress(table, None)
  {
  }

  lemma {:induction false} StopsHere(t: Watches, ids: seq<nat>, n: nat, m: nat, u: Update)
    requires n <= m <= |ids| && (forall i | 0 <= i < |ids| :: ids[i] in t) && UpTo(t, ids, n, u).error.Some?
    ensures UpTo(t, ids, m, u) == UpTo(t, ids, n, u)
    decreases m
  {
    hide Reconcile;
    if n < m { StopsHere(t, ids, n, m - 1, u); }
  }

  // ---- Repeating ----------------------------------------------------------------------------------

  /** Reconciling a watch again with the same update changes nothing. */
  lemma ReconcileTwice(w: Watch, u: Update)
    requires MatchedOnChain(u) && Reconcile(w, u).Ok?
    ensures Reconcile(Reconcile(w, u).value, u) == Reconcile(w, u)
  {
    hide FoundFunding; hide FoundSpend; hide Settled; hide MatchedOnChain; hide WithoutStale;
    StableAfter(w, u);
  }

  /** The rows after `n` watches: the first ones reconciled, the others as they were. */
  lemma {:induction false} RowAfter(t: Watches, ids: seq<nat>, n: nat, u: Update, id: nat)
    requires n <= |ids| && Lists(t, ids) && UpTo(t, ids, n, u).error.None?
    ensures UpTo(t, ids, n, u).table.Keys == t.Keys
    ensures id in t && id !in ids[..n] ==> UpTo(t, ids, n, u).table[id] == t[id]
    ensures id in ids[..n] ==>
              Reconcile(t[id].value, u).Ok? && UpTo(t, ids, n, u).table[id] == Row(t[id], Reconcile(t[id].value, u).value)
    decreases n
  {
    hide Reconcile;
    if n != 0 {
      assert ids[..n] == ids[..n - 1] + [ids[n - 1]];
      assert ids[n - 1] !in ids[..n - 1];
      RowAfter(t, ids, n - 1, u, id);
    }
  }

  /** Running again over what is already done writes nothing. */
  lemma {:induction false} RepeatPrefix(t: Watches, ids: seq<nat>, k: nat, n: nat, u: Update)
    requires n <= k <= |ids| && Lists(t, ids) && MatchedOnChain(u) && UpTo(t, ids, k, u).error.None?
    ensures Lists(UpTo(t, ids, k, u).table, ids)
    ensures UpTo(UpTo(t, ids, k, u).table, ids, n, u) == Progress(UpTo(t, ids, k, u).table, None)
    decreases n
  {
    hide Reconcile; hide MatchedOnChain;
    RowAfter(t, ids, k, u, 0);
    if n != 0 {
      RepeatPrefix(t, ids, k, n - 1, u);
      var id := ids[n - 1];
      var t' := UpTo(t, ids, k, u).table;
      assert id in ids[..k];
      RowAfter(t, ids, k, u, id);
      ReconcileTwice(t[id].value, u);
      assert t'[id := t'[id]] == t';
    }
  }

  lemma {:induction false} RepeatRest(t: Watches, ids: seq<nat>, k: nat, n: nat, u: Update)
    requires k <= n <= |ids| && Lists(t, ids) && MatchedOnChain(u) && UpTo(t, ids, k, u).error.None?
    ensures Lists(UpTo(t, ids, k, u).table, ids)
    ensures UpTo(UpTo(t, ids, k, u).table, ids, n, u) == UpTo(t, ids, n, u)
    decreases n
  {
    hide Reconcile; hide MatchedOnChain;
    RepeatPrefix(t, ids, k, k, u);
    if k < n {
      RepeatRest(t, ids, k, n - 1, u);
      var id := ids[n - 1];
      assert id !in ids[..k];
      RowAfter(t, ids, k, u, id);
    }
  }

  /**
   A run stopped at any watch, by a crash or by an error, and then repeated ends
   in the same store and with the same answer as a run that was not stopped.
   */
  lemma {:induction false} RestartIsSame(t: Watches, ids: seq<nat>, k: nat, u: Update)
    requires k <= |ids| && Lists(t, ids) && MatchedOnChain(u)
    ensures Lists(UpTo(t, ids, k, u).table, ids)
    ensures UpTo(UpTo(t, ids, k, u).table, ids, |ids|, u) == UpTo(t, ids, |ids|, u)
    decreases k
  {
    hide Reconcile; hide MatchedOnChain;
    if UpTo(t, ids, k, u).error.None? {
      RepeatRest(t, ids, k, |ids|, u);
    } else {
      RestartIsSame(t, ids, k - 1, u);
    }
  }

  lemma ResultIsValid(w: Watch, u: Update)
    requires Reconcile(w, u).Ok?
    ensures Valid(Reconcile(w, u).value)
  {
    hide InBlocks;
  }

  /** The store can be loaded again wherever the run stopped. */
  lemma {:induction false} StaysLoadable(t: Watches, ids: seq<nat>, n: nat, u: Update)
    requires n <= |ids| && Lists(t, ids) && AllValid(t)
    ensures AllValid(UpTo(t, ids, n, u).table)
    decreases n
  {
    hide Reconcile; hide Valid;
    if n != 0 {
      StaysLoadable(t, ids, n - 1, u);
      var w := t[ids[n - 1]].value;
      if Reconcile(w, u).Ok? { ResultIsValid(w, u); }
    }
  }
}
