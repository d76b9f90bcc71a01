/**
 Reconciling a watch step by step, over any reorganizations, finds what one scan
 of the whole canonical chain finds.
 */
module WatchRuns {
  import opened RecordStore
  import opened Watch

  type Chain = seq<Block>

  // ---- What a chain says about a contract ---------------------------------------------------

  ghost predicate TouchesAt(q: Query, chain: Chain, h: nat, k: nat) {
    h < |chain| && k < |chain[h].txs| && q.from <= h && Touches(q, chain[h].txs[k])
  }

  predicate Verifies(q: Query, tx: Tx) {
    match q
    case FundingOf(terms, _) => VerifyFunding(terms, tx).Ok?
    case SpendOf(terms, outpoint, _) => VerifySpend(terms, outpoint, tx).Ok?
  }

  /** The chain holds at most one transaction of the kind, and it verifies. */
  ghost predicate AtMostOne(q: Query, chain: Chain) {
    && (forall h: nat, k: nat, g: nat, j: nat | TouchesAt(q, chain, h, k) && TouchesAt(q, chain, g, j) :: h == g && k == j)
    && (forall h: nat, k: nat | TouchesAt(q, chain, h, k) :: Verifies(q, chain[h].txs[k]))
  }

  /** The observation is the transaction the chain holds, or there is none. */
  ghost predicate Tells(q: Query, chain: Chain, o: Option<Observation>) {
    match o
    case None => forall h: nat, k: nat :: !TouchesAt(q, chain, h, k)
    case Some(x) => exists k: nat :: SeenAt(q, chain, x, k)
  }

  ghost predicate SeenAt(q: Query, chain: Chain, o: Observation, k: nat) {
    && TouchesAt(q, chain, o.height, k)
    && o.block == chain[o.height] && o.tx == chain[o.height].txs[k]
    && Verified(q, o.tx, Matched(o.height, o.block), o.confirmations) == Ok(o)
  }

  ghost predicate MatchesChain(w: Watch, chain: Chain) {
    && Tells(FundingQuery(w), chain, w.funding)
    && (w.funding.None? ==> w.spend.None?)
    && (w.funding.Some? ==> Tells(SpendQuery(w, w.funding.value), chain, w.spend))
  }

  /** The spend query of a funding transaction found on the chain. */
  function SpendQueryAt(terms: Terms, chain: Chain, h: nat, k: nat): Query
    requires h < |chain| && k < |chain[h].txs| && VerifyFunding(terms, chain[h].txs[k]).Ok?
  {
    SpendOf(terms, OutPoint(chain[h].txs[k].txid, VerifyFunding(terms, chain[h].txs[k]).value), h)
  }

  /** From the registered height on: one funding at most, and one spend of it at most, both valid. */
  ghost predicate GoodChain(terms: Terms, registered: nat, chain: Chain) {
    var q := FundingOf(terms, registered);
    && AtMostOne(q, chain)
    && forall h: nat, k: nat | TouchesAt(q, chain, h, k) && Verifies(q, chain[h].txs[k]) ::
         AtMostOne(SpendQueryAt(terms, chain, h, k), chain)
  }

  // ---- What an update supplies -----------------------------------------------------------------

  /** Every touching block from the fork on is among the matched ones. */
  ghost predicate Supplied(q: Query, chain: Chain, fork: nat, u: Update) {
    forall h: nat, k: nat | fork <= h && TouchesAt(q, chain, h, k) :: MatchedAt(u, h, chain[h])
  }

  ghost predicate MatchedAt(u: Update, h: nat, block: Block) {
    exists b | 0 <= b < |u.matched| :: u.matched[b] == Matched(h, block)
  }

  /** The update is about this chain: its tip, a part of its blocks and distinct matched blocks of it. */
  ghost predicate About(u: Update, chain: Chain) {
    && |chain| > 0 && u.tip == Checkpoint(|chain| - 1, chain[|chain| - 1])
    && (forall h | h in u.checkpoints :: h < |chain| && u.checkpoints[h] == chain[h])
    && Checks(u) && MatchedOnChain(u)
    && (forall a, b | 0 <= a < b < |u.matched| :: u.matched[a].height != u.matched[b].height)
  }

  ghost predicate RecordedSeen(u: Update, fork: nat, o: Option<Observation>) {
    o.Some? && fork <= o.value.height ==> o.value.height in u.checkpoints
  }

  /** `prev` and `chain` share their first `fork` blocks, and `u` supplies the rest of `chain`. */
  ghost predicate Supplies(w: Watch, prev: Chain, chain: Chain, fork: nat, u: Update) {
    && About(u, chain)
    && fork <= |prev| && fork <= |chain| && prev[..fork] == chain[..fork]
    && w.registered.height < |chain|
    && RecordedSeen(u, fork, w.funding) && RecordedSeen(u, fork, w.spend)
    && Supplied(FundingQuery(w), chain, fork, u)
    && (forall h: nat, k: nat | TouchesAt(FundingQuery(w), chain, h, k) && Verifies(FundingQuery(w), chain[h].txs[k]) ::
          Supplied(SpendQueryAt(w.terms, chain, h, k), chain, fork, u))
  }

  // ---- One query -----------------------------------------------------------------------------------

  lemma SharedBlock(prev: Chain, chain: Chain, fork: nat, h: nat)
    requires fork <= |prev| && fork <= |chain| && prev[..fork] == chain[..fork] && h < fork
    ensures prev[h] == chain[h]
  {
    assert prev[..fork][h] == chain[..fork][h];
  }

  lemma SharedTouch(q: Query, prev: Chain, chain: Chain, fork: nat, h: nat, k: nat)
    requires fork <= |prev| && fork <= |chain| && prev[..fork] == chain[..fork] && h < fork && TouchesAt(q, chain, h, k)
    ensures TouchesAt(q, prev, h, k)
  {
    SharedBlock(prev, chain, fork, h);
  }

  /** An observation that the update does not contradict is on the new chain too. */
  lemma Keeps(q: Query, prev: Chain, chain: Chain, fork: nat, u: Update, o: Observation)
    requires fork <= |prev| && fork <= |chain| && prev[..fork] == chain[..fork] && About(u, chain)
    requires Tells(q, prev, Some(o)) && RecordedSeen(u, fork, Some(o)) && !Conflicts(u, o)
    ensures Tells(q, chain, Some(o))
  {
    hide Touches; hide Verified;
    var k: nat :| SeenAt(q, prev, o, k);
    if o.height < fork {
      SharedBlock(prev, chain, fork, o.height);
    }
    assert SeenAt(q, chain, o, k);
  }

  /** Nothing of the kind lies below the fork when nothing is kept. */
  lemma NothingShared(q: Query, prev: Chain, chain: Chain, fork: nat, u: Update, o: Option<Observation>)
    requires fork <= |prev| && fork <= |chain| && prev[..fork] == chain[..fork] && About(u, chain)
    requires Tells(q, prev, o) && AtMostOne(q, prev) && (o.Some? ==> Conflicts(u, o.value))
    ensures forall h: nat, k: nat | TouchesAt(q, chain, h, k) :: fork <= h
  {
    hide Touches; hide Verified; hide Verifies;
    forall h: nat, k: nat | TouchesAt(q, chain, h, k) ensures fork <= h {
      if h < fork { SharedTouch(q, prev, chain, fork, h, k); }
    }
  }

  /** The scan of the matched blocks finds what the chain holds. */
  lemma Scan(q: Query, chain: Chain, fork: nat, u: Update) returns (found: Option<Observation>)
    requires About(u, chain) && AtMostOne(q, chain) && Supplied(q, chain, fork, u)
    requires forall h: nat, k: nat | TouchesAt(q, chain, h, k) :: fork <= h
    ensures InBlocks(q, u.matched, |u.matched|, u.tip.height) == Ok(if found.Some? then [found.value] else [])
    ensures Tells(q, chain, found)
    ensures found.Some? ==> fork <= found.value.height
  {
    hide Touches; hide InBlocks;
    if h: nat, k: nat :| TouchesAt(q, chain, h, k) {
      var tx := chain[h].txs[k];
      assert Verifies(q, tx);
      assert MatchedAt(u, h, chain[h]);
      var b :| 0 <= b < |u.matched| && u.matched[b] == Matched(h, chain[h]);
      var m := u.matched[b];
      var o := Verified(q, tx, m, u.tip.height - h + 1).value;
      assert Observe(q, m, tx, u.tip.height) == Ok([o]);
      assert TouchedAt(q, u.matched, b, k);
      forall c: nat, j: nat | c < |u.matched| && TouchedAt(q, u.matched, c, j) ensures c == b && j == k {
        assert u.matched[c].block == chain[u.matched[c].height];
        assert TouchesAt(q, chain, u.matched[c].height, j);
      }
      OneInBlocks(q, u.matched, |u.matched|, b, k, u.tip.height, o);
      found := Some(o);
      assert SeenAt(q, chain, o, k);
    } else {
      forall c: nat, j: nat | c < |u.matched| ensures !TouchedAt(q, u.matched, c, j) {
        assert u.matched[c].block == chain[u.matched[c].height];
        assert !TouchesAt(q, chain, u.matched[c].height, j);
      }
      NoneInBlocks(q, u.matched, |u.matched|, u.tip.height);
      found := None;
    }
  }

  // ---- The two parts of a reconciliation ------------------------------------------------------------

  /** After the funding part: the funding is the chain's, and the spend is kept only with its funding. */
  ghost predicate Funded(w: Watch, u: Update, chain: Chain, fork: nat, w1: Watch) {
    && w1 == w.(funding := w1.funding, spend := w1.spend)
    && Tells(FundingQuery(w), chain, w1.funding)
    && ((w1.funding.Some? && w1.funding == w.funding && w1.spend == WithoutStale(w, u).spend)
        || (w1.spend.None? && (w1.funding.Some? ==> fork <= w1.funding.value.height)))
    && (w1.funding.None? ==> w1.spend.None?)
  }

  lemma FundingPart(w: Watch, prev: Chain, chain: Chain, fork: nat, u: Update) returns (w1: Watch)
    requires MatchesChain(w, prev) && Supplies(w, prev, chain, fork, u)
    requires GoodChain(w.terms, w.registered.height, prev) && GoodChain(w.terms, w.registered.height, chain)
    ensures FoundFunding(w, u) == Ok(w1) && Funded(w, u, chain, fork, w1)
  {
    var q, kept := FundingQuery(w), WithoutStale(w, u);
    hide Touches; hide InBlocks; hide Verified; hide AtMostOne; hide Tells; hide Supplied;
    if kept.funding.Some? {
      Keeps(q, prev, chain, fork, u, w.funding.value);
      w1 := kept;
    } else {
      NothingShared(q, prev, chain, fork, u, w.funding);
      var found := Scan(q, chain, fork, u);
      w1 := kept.(funding := found);
    }
  }

  /** A funding observation the chain tells has its own well-behaved spend query. */
  lemma FundingSpends(w: Watch, chain: Chain, f: Observation)
    requires GoodChain(w.terms, w.registered.height, chain) && Tells(FundingQuery(w), chain, Some(f))
    ensures AtMostOne(SpendQuery(w, f), chain)
    ensures FundingObserved(w, f)
  {
    var q := FundingQuery(w);
    var k: nat :| SeenAt(q, chain, f, k);
    assert Verifies(q, chain[f.height].txs[k]);
    assert SpendQueryAt(w.terms, chain, f.height, k) == SpendQuery(w, f);
  }

  predicate FundingObserved(w: Watch, f: Observation) {
    f.branch.None? && f.preimage.None? && w.registered.height <= f.height && VerifyFunding(w.terms, f.tx) == Ok(f.index)
  }

  predicate SpendObserved(w: Watch, f: Observation, s: Observation) {
    && f.height <= s.height && s.branch.Some?
    && VerifySpend(w.terms, FundedAt(f), s.tx) == Ok(Proof(s.branch.value, s.preimage))
  }

  lemma SpendTold(w: Watch, chain: Chain, f: Observation, s: Observation)
    requires Tells(SpendQuery(w, f), chain, Some(s))
    ensures SpendObserved(w, f, s) && s.height < |chain|
    ensures s.preimage.Some? ==> s.preimage.value >= 0 && Hash(s.preimage.value) == w.terms.hashlock
  {
    var k: nat :| SeenAt(SpendQuery(w, f), chain, s, k);
  }

  lemma SpendSupplied(w: Watch, prev: Chain, chain: Chain, fork: nat, u: Update, f: Observation)
    requires Supplies(w, prev, chain, fork, u) && GoodChain(w.terms, w.registered.height, chain)
    requires Tells(FundingQuery(w), chain, Some(f))
    ensures AtMostOne(SpendQuery(w, f), chain) && Supplied(SpendQuery(w, f), chain, fork, u)
  {
    var q := FundingQuery(w);
    var k: nat :| SeenAt(q, chain, f, k);
    assert Verifies(q, chain[f.height].txs[k]);
    assert SpendQueryAt(w.terms, chain, f.height, k) == SpendQuery(w, f);
  }

  lemma SpendBelowFork(w: Watch, prev: Chain, chain: Chain, fork: nat, u: Update, w1: Watch)
    requires MatchesChain(w, prev) && Supplies(w, prev, chain, fork, u)
    requires GoodChain(w.terms, w.registered.height, prev)
    requires Funded(w, u, chain, fork, w1) && w1.funding.Some? && w1.spend.None?
    ensures forall h: nat, k: nat | TouchesAt(SpendQuery(w, w1.funding.value), chain, h, k) :: fork <= h
  {
    var f := w1.funding.value;
    if w1.funding == w.funding && w1.spend == WithoutStale(w, u).spend {
      FundingSpends(w, prev, f);
      hide Touches; hide AtMostOne; hide GoodChain; hide Supplied;
      if w.spend.Some? && !Conflicts(u, w.spend.value) {
        assert Conflicts(u, f);
        FundingKeptIsNot(w, prev, chain, fork, u, f);
      } else {
        NothingShared(SpendQuery(w, f), prev, chain, fork, u, w.spend);
      }
    }
  }

  /** A funding told by the new chain does not conflict with an update about it. */
  lemma FundingKeptIsNot(w: Watch, prev: Chain, chain: Chain, fork: nat, u: Update, f: Observation)
    requires Supplies(w, prev, chain, fork, u) && Conflicts(u, f)
    ensures !Tells(FundingQuery(w), chain, Some(f))
  {
  }

  ghost predicate Spent(w: Watch, chain: Chain, w1: Watch, w2: Watch) {
    && w2 == w1.(spend := w2.spend, revealed := w2.revealed)
    && (w1.funding.Some? ==> Tells(SpendQuery(w, w1.funding.value), chain, w2.spend))
    && (w1.funding.None? ==> w2.spend.None?)
    && (w2.spend.Some? && w2.spend.value.preimage.Some? ==> w2.revealed == w2.spend.value.preimage)
    && (w2.revealed == w1.revealed || (w2.revealed.Some? && w2.revealed.value >= 0 && Hash(w2.revealed.value) == w.terms.hashlock))
  }

  lemma SpendPart(w: Watch, prev: Chain, chain: Chain, fork: nat, u: Update, w1: Watch) returns (w2: Watch)
    requires Valid(w) && MatchesChain(w, prev) && Supplies(w, prev, chain, fork, u)
    requires GoodChain(w.terms, w.registered.height, prev) && GoodChain(w.terms, w.registered.height, chain)
    requires Funded(w, u, chain, fork, w1)
    ensures FoundSpend(w1, u) == Ok(w2) && Spent(w, chain, w1, w2)
  {
    hide InBlocks; hide Touches; hide Verified; hide VerifySpend; hide VerifyFunding; hide AtMostOne; hide Supplied; hide GoodChain;
    if w1.funding.None? {
      w2 := w1;
    } else {
      var f := w1.funding.value;
      SpendSupplied(w, prev, chain, fork, u, f);
      if w1.spend.Some? {
        hide Tells;
        Keeps(SpendQuery(w, f), prev, chain, fork, u, w1.spend.value);
        w2 := w1;
      } else {
        SpendBelowFork(w, prev, chain, fork, u, w1);
        var found := Scan(SpendQuery(w, f), chain, fork, u);
        if found.Some? { SpendTold(w, chain, f, found.value); }
        w2 := AddSpend(w1, Ok(if found.Some? then [found.value] else [])).value;
      }
    }
  }

  /** Counting confirmations and the final check succeed on what the chain tells. */
  lemma SettlePart(w: Watch, chain: Chain, u: Update, fork: nat, w1: Watch, w2: Watch) returns (w3: Watch)
    requires Valid(w) && About(u, chain) && w.registered.height < |chain|
    requires GoodChain(w.terms, w.registered.height, chain)
    requires Funded(w, u, chain, fork, w1) && Spent(w, chain, w1, w2)
    ensures Settled(w2, u) == Ok(w3)
    ensures w3 == w2.(funding := w3.funding, spend := w3.spend, scanned := u.tip)
    ensures w3.funding.Some? == w2.funding.Some? && w3.spend.Some? == w2.spend.Some?
    ensures w2.funding.Some? ==> w3.funding == Some(w2.funding.value.(confirmations := u.tip.height - w2.funding.value.height + 1))
                                 && w2.funding.value.height <= u.tip.height
    ensures w2.spend.Some? ==> w3.spend == Some(w2.spend.value.(confirmations := u.tip.height - w2.spend.value.height + 1))
                               && w2.spend.value.height <= u.tip.height
  {
    hide Touches; hide VerifySpend; hide VerifyFunding; hide AtMostOne; hide Supplied;
    if w2.funding.Some? {
      FundingSpends(w, chain, w2.funding.value);
      if w2.spend.Some? { SpendTold(w, chain, w2.funding.value, w2.spend.value); }
    }
    hide GoodChain; hide FundingQuery; hide SpendQuery;
    var counted := RecountBoth(w2, u.tip.height).value;
    w3 := counted.(scanned := u.tip);
    assert Valid(w3);
  }

  lemma Recounted(q: Query, chain: Chain, o: Observation, c: nat)
    requires Tells(q, chain, Some(o))
    ensures Tells(q, chain, Some(o.(confirmations := c)))
  {
    var k: nat :| SeenAt(q, chain, o, k);
    assert SeenAt(q, chain, o.(confirmations := c), k);
  }

  /**
   One reconciliation: a watch that agrees with the previous chain, given an update
   that supplies what changed, is accepted and agrees with the new chain.
   */
  lemma ReconcileMatches(w: Watch, prev: Chain, chain: Chain, fork: nat, u: Update) returns (next: Watch)
    requires Valid(w) && MatchesChain(w, prev) && Supplies(w, prev, chain, fork, u)
    requires GoodChain(w.terms, w.registered.height, prev) && GoodChain(w.terms, w.registered.height, chain)
    ensures Reconcile(w, u) == Ok(next)
    ensures Valid(next) && MatchesChain(next, chain) && next.scanned == u.tip
    ensures next.terms == w.terms && next.registered == w.registered
  {
    var w1 := FundingPart(w, prev, chain, fork, u);
    var w2 := SpendPart(w, prev, chain, fork, u, w1);
    next := SettlePart(w, chain, u, fork, w1, w2);
    hide GoodChain; hide Supplied; hide FoundFunding; hide FoundSpend; hide Touches;
    assert FundingQuery(next) == FundingQuery(w);
    if w2.funding.Some? {
      Recounted(FundingQuery(w), chain, w2.funding.value, u.tip.height - w2.funding.value.height + 1);
      assert SpendQuery(next, next.funding.value) == SpendQuery(w, w2.funding.value);
      if w2.spend.Some? {
        Recounted(SpendQuery(w, w2.funding.value), chain, w2.spend.value, u.tip.height - w2.spend.value.height + 1);
      }
    }
  }

  // ---- Whole runs -------------------------------------------------------------------------------------

  /** The canonical chain at a call, how much of it the call before shared, and what the call was given. */
  datatype Step = Step(chain: Chain, fork: nat, update: Update)

  function Fresh(terms: Terms, registered: Checkpoint): Watch {
    Watch(terms, registered, registered, None, None, None)
  }

  function Run(w: Watch, steps: seq<Step>): Result<Watch, Error>
    decreases |steps|
  {
    if steps == [] then Ok(w)
    else
      match Run(w, steps[..|steps| - 1])
      case Err(e) => Err(e)
      case Ok(v) => Reconcile(v, steps[|steps| - 1].update)
  }

  function LastChain(prev: Chain, steps: seq<Step>): Chain {
    if steps == [] then prev else steps[|steps| - 1].chain
  }

  /** Every call supplies what its watch needs, on well-behaved chains. */
  ghost predicate GoodRun(w: Watch, prev: Chain, steps: seq<Step>)
    decreases |steps|
  {
    steps == [] || (
      var before := steps[..|steps| - 1];
      var s := steps[|steps| - 1];
      && GoodRun(w, prev, before)
      && GoodChain(w.terms, w.registered.height, s.chain)
      && (Run(w, before).Ok? ==> Supplies(Run(w, before).value, LastChain(prev, before), s.chain, s.fork, s.update)))
  }

  lemma {:induction false} RunMatches(w: Watch, prev: Chain, steps: seq<Step>)
    requires Valid(w) && MatchesChain(w, prev) && GoodChain(w.terms, w.registered.height, prev) && GoodRun(w, prev, steps)
    ensures Run(w, steps).Ok?
    ensures var v := Run(w, steps).value;
            && Valid(v) && MatchesChain(v, LastChain(prev, steps)) && v.terms == w.terms && v.registered == w.registered
            && GoodChain(w.terms, w.registered.height, LastChain(prev, steps))
            && (steps != [] ==> v.scanned == steps[|steps| - 1].update.tip)
    decreases |steps|
  {
    hide Valid; hide MatchesChain; hide GoodChain; hide Supplies; hide Reconcile;
    if steps != [] {
      var before, s := steps[..|steps| - 1], steps[|steps| - 1];
      RunMatches(w, prev, before);
      var v := Run(w, before).value;
      var next := ReconcileMatches(v, LastChain(prev, before), s.chain, s.fork, s.update);
    }
  }

  /** Everything there is to know about a chain. */
  function WholeChain(chain: Chain): Update
    requires |chain| > 0
  {
    Update(Checkpoint(|chain| - 1, chain[|chain| - 1]), map h: nat | h < |chain| :: chain[h],
           seq(|chain|, h requires 0 <= h < |chain| => Matched(h, chain[h])))
  }

  /** The scan from scratch: a new watch, given the whole chain. */
  function Rescan(terms: Terms, registered: Checkpoint, chain: Chain): Result<Watch, Error>
    requires |chain| > 0
  {
    Reconcile(Fresh(terms, registered), WholeChain(chain))
  }

  lemma WholeSupplied(q: Query, chain: Chain)
    requires |chain| > 0
    ensures Supplied(q, chain, 0, WholeChain(chain))
  {
    forall h: nat, k: nat | TouchesAt(q, chain, h, k) ensures MatchedAt(WholeChain(chain), h, chain[h]) {
      assert WholeChain(chain).matched[h] == Matched(h, chain[h]);
    }
  }

  lemma FreshMatches(terms: Terms, registered: Checkpoint, prev: Chain)
    requires |prev| <= registered.height
    ensures Valid(Fresh(terms, registered)) && MatchesChain(Fresh(terms, registered), prev)
    ensures GoodChain(terms, registered.height, prev)
  {
  }

  lemma RescanMatches(terms: Terms, registered: Checkpoint, chain: Chain) returns (v: Watch)
    requires registered.height < |chain| && GoodChain(terms, registered.height, chain)
    ensures Rescan(terms, registered, chain) == Ok(v)
    ensures Valid(v) && MatchesChain(v, chain) && v.scanned == WholeChain(chain).tip
    ensures v.terms == terms && v.registered == registered
  {
    var w, u := Fresh(terms, registered), WholeChain(chain);
    FreshMatches(terms, registered, []);
    WholeSupplied(FundingQuery(w), chain);
    forall h: nat, k: nat | TouchesAt(FundingQuery(w), chain, h, k) && Verifies(FundingQuery(w), chain[h].txs[k])
      ensures Supplied(SpendQueryAt(terms, chain, h, k), chain, 0, u)
    {
      WholeSupplied(SpendQueryAt(terms, chain, h, k), chain);
    }
    hide GoodChain; hide MatchesChain; hide Valid; hide Supplied; hide Touches; hide Reconcile;
    assert About(u, chain);
    assert Supplies(w, [], chain, 0, u);
    v := ReconcileMatches(w, [], chain, 0, u);
  }

  /** One chain tells one story. */
  lemma ToldOnce(q: Query, chain: Chain, a: Option<Observation>, b: Option<Observation>)
    requires AtMostOne(q, chain) && Tells(q, chain, a) && Tells(q, chain, b)
    requires a.Some? && b.Some? && a.value.height == b.value.height ==> a.value.confirmations == b.value.confirmations
    ensures a == b
  {
    hide Touches; hide Verifies; hide Verified;
    if a.Some? && b.Some? {
      var k: nat :| SeenAt(q, chain, a.value, k);
      var j: nat :| SeenAt(q, chain, b.value, j);
    }
  }

  lemma SameStory(v: Watch, r: Watch, chain: Chain)
    requires Valid(v) && Valid(r) && v.terms == r.terms && v.registered == r.registered && v.scanned == r.scanned
    requires MatchesChain(v, chain) && MatchesChain(r, chain) && GoodChain(v.terms, v.registered.height, chain)
    ensures v.funding == r.funding && v.spend == r.spend
  {
    hide Touches; hide Tells; hide AtMostOne; hide VerifySpend; hide VerifyFunding;
    ToldOnce(FundingQuery(v), chain, v.funding, r.funding);
    if v.funding.Some? {
      FundingSpends(v, chain, v.funding.value);
      ToldOnce(SpendQuery(v, v.funding.value), chain, v.spend, r.spend);
    }
  }

  /**
   After any run of reconciliations over reorganizing chains, the funding and the
   spend are exactly those of a scan of the last chain from scratch.
   */
  lemma IncrementalEqualsRescan(terms: Terms, registered: Checkpoint, prev: Chain, steps: seq<Step>)
    requires |prev| <= registered.height && steps != []
    requires GoodRun(Fresh(terms, registered), prev, steps)
    ensures var chain := LastChain(prev, steps);
            && registered.height < |chain|
            && Run(Fresh(terms, registered), steps).Ok? && Rescan(terms, registered, chain).Ok?
            && Run(Fresh(terms, registered), steps).value.funding == Rescan(terms, registered, chain).value.funding
            && Run(Fresh(terms, registered), steps).value.spend == Rescan(terms, registered, chain).value.spend
  {
    FreshMatches(terms, registered, prev);
    var w := Fresh(terms, registered);
    RunMatches(w, prev, steps);
    hide Valid; hide MatchesChain; hide GoodChain; hide Reconcile; hide Supplied;
    var before, s := steps[..|steps| - 1], steps[|steps| - 1];
    assert Run(w, before).Ok?;
    assert Supplies(Run(w, before).value, LastChain(prev, before), s.chain, s.fork, s.update);
    RegisteredKept(w, before);
    var v := Run(w, steps).value;
    var r := RescanMatches(terms, registered, s.chain);
    SameStory(v, r, s.chain);
  }

  lemma {:induction false} RegisteredKept(w: Watch, steps: seq<Step>)
    requires Run(w, steps).Ok?
    ensures Run(w, steps).value.registered == w.registered
    decreases |steps|
  {
    hide Reconcile;
    if steps != [] {
      RegisteredKept(w, steps[..|steps| - 1]);
      SameRegistration(Run(w, steps[..|steps| - 1]).value, steps[|steps| - 1].update);
    }
  }

  lemma SameRegistration(w: Watch, u: Update)
    requires Reconcile(w, u).Ok?
    ensures Reconcile(w, u).value.registered == w.registered
  {
    hide InBlocks; hide Valid;
  }

  // ---- Secrets --------------------------------------------------------------------------------------

  /** Nothing a reconciliation is given makes it forget or replace a revealed preimage. */
  lemma PreimageKept(w: Watch, u: Update)
    requires Reconcile(w, u).Ok? && w.revealed.Some?
    ensures Reconcile(w, u).value.revealed == w.revealed
  {
    hide InBlocks; hide Valid;
  }

  /** For every run of updates whatsoever. */
  lemma {:induction false} PreimageIsForever(w: Watch, steps: seq<Step>)
    requires Run(w, steps).Ok? && w.revealed.Some?
    ensures Run(w, steps).value.revealed == w.revealed
    decreases |steps|
  {
    hide Reconcile;
    if steps != [] {
      PreimageIsForever(w, steps[..|steps| - 1]);
      PreimageKept(Run(w, steps[..|steps| - 1]).value, steps[|steps| - 1].update);
    }
  }

  // ---- What a caller may settle on -------------------------------------------------------------------

  /** `verified_lock_at`: the funding outpoint and its depth, for a caller at this very checkpoint. */
  function VerifiedLockAt(w: Watch, at: Checkpoint): Option<Observation> {
    if w.funding.Some? && at == w.scanned && w.funding.value.confirmations >= w.terms.minimum then w.funding else None
  }

  /** `verified_spend_at`. */
  function VerifiedSpendAt(w: Watch, at: Checkpoint): Option<Observation> {
    if VerifiedLockAt(w, at).Some? && w.spend.Some? && w.spend.value.branch.Some?
       && VerifySpend(w.terms, FundedAt(w.funding.value), w.spend.value.tx) == Ok(Proof(w.spend.value.branch.value, w.spend.value.preimage))
       && w.spend.value.confirmations != 0
    then w.spend else None
  }

  /** A lock is given exactly when the chain holds the funding deep enough; a spend exactly when it also holds that. */
  lemma SettlesExactlyOnChain(w: Watch, chain: Chain, at: Checkpoint)
    requires Valid(w) && |chain| > 0 && MatchesChain(w, chain) && w.scanned == Checkpoint(|chain| - 1, chain[|chain| - 1])
    requires AtMostOne(FundingQuery(w), chain)
    ensures VerifiedLockAt(w, at).Some? <==>
              at == w.scanned && exists h: nat, k: nat :: TouchesAt(FundingQuery(w), chain, h, k) && |chain| - h >= w.terms.minimum
    ensures VerifiedLockAt(w, at).Some? ==>
              (VerifiedSpendAt(w, at).Some? <==>
                 exists h: nat, k: nat :: TouchesAt(SpendQuery(w, w.funding.value), chain, h, k))
  {
    hide Touches; hide VerifySpend; hide VerifyFunding;
    if w.funding.Some? {
      var k: nat :| SeenAt(FundingQuery(w), chain, w.funding.value, k);
      assert TouchesAt(FundingQuery(w), chain, w.funding.value.height, k);
      if w.spend.Some? {
        var j: nat :| SeenAt(SpendQuery(w, w.funding.value), chain, w.spend.value, j);
        assert TouchesAt(SpendQuery(w, w.funding.value), chain, w.spend.value.height, j);
      }
    }
  }
}
