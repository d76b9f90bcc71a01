/**
 Updates after the first one. A return adds the lookahead scripts without testing
 the blocks already scanned for them, so that a later update can return with the
 gap open. The exact condition is stated on the state in which the update begins.
 */
module GapScanUpdates {
  import opened RecordStore
  import opened GapScan

  /** The number of script indices within the gap. */
  function Window(ix: Index, gap: nat): (n: nat)
    ensures forall i: nat :: WithinGap(ix, gap, i) <==> i < n
  {
    match HighestUsed(ix)
    case None => gap
    case Some(u) => u + 1 + gap
  }

  /** A used index is revealed. */
  predicate Sane(ix: Index) {
    && (ix.usedExternal.Some? ==> ix.usedExternal.value <= ix.revealedExternal)
    && (ix.usedInternal.Some? ==> ix.usedInternal.value <= ix.revealedInternal)
  }

  /** Every fetched block is counted in the index. */
  ghost predicate Counted(w: World) {
    forall b | b in w.fetched :: Grow(w.sub.index, b) == w.sub.index
  }

  ghost predicate SwapApart(s: Subscriber) {
    forall x | x in s.swap :: x.OfSwap?
  }

  /** Between two updates: nothing is pending, and the scripts reach exactly to the end of the gap. */
  ghost predicate Rested(w: World) {
    && Placed(w.chain) && w.chain != [] && w.pending == {}
    && w.sub.queued == [] && w.sub.incremental.None? && w.sub.rescanned == {}
    && w.sub.count == Window(w.sub.index, w.sub.gap)
    && (forall k: Keychain, i: nat | i < w.sub.count :: OfWallet(k, i) in w.sub.wallet)
    && Sane(w.sub.index) && Counted(w) && SwapApart(w.sub)
  }

  // ---- The condition ---------------------------------------------------------------------------------

  /** The scripts that an extension at this index adds. */
  ghost function Added(w: World, e: Index): set<Script> {
    WalletScripts(e, Window(e, w.sub.gap)) - w.sub.wallet
  }

  /** A block that uses no index above the highest used one. */
  predicate NoHigher(b: Block, e: Index) {
    HighestUsed(Grow(e, b)) == HighestUsed(e)
  }

  /**
   The block at height `h` is not emitted again and not fetched. Its filter matches a
   script the subscriber has, one that a use of these indices brings within the gap;
   the use is within the index limit. It matches none of the scripts the use adds, and
   the blocks below it that do match one use no higher index.
   */
  ghost predicate MissableAt(w: World, from: nat, external: Option<nat>, internal: Option<nat>, h: nat, k: Keychain, i: nat) {
    var e := Uses(w.sub.index, external, internal);
    && h < |w.chain| && h < from && w.chain[h] !in w.fetched
    && OfWallet(k, i) in AllScripts(w.sub) && OfWallet(k, i) in w.chain[h].filter && WithinGap(e, w.sub.gap, i)
    && w.sub.count < Window(e, w.sub.gap) <= MAX_SCRIPT_INDEX
    && !Matches(w.chain[h], Added(w, e))
    && forall g: nat | g < h && w.chain[g] !in w.fetched && Matches(w.chain[g], Added(w, e)) :: NoHigher(w.chain[g], e)
  }

  ghost predicate Missable(w: World, from: nat) {
    exists external: Option<nat>, internal: Option<nat>, h: nat, k: Keychain, i: nat :: MissableAt(w, from, external, internal, h, k, i)
  }

  /** If this run ends in a return, the gap is closed there. */
  ghost predicate ClosesAfter(w: World, actions: seq<Action>, last: Action) {
    StillRunning(w, actions) && Returns(Run(w, actions), last) ==> GapClosed(Next(Run(w, actions), last))
  }

  /** Every run of the next update closes the gap when it returns. */
  ghost predicate NextCloses(w: World) {
    forall actions: seq<Action>, last: Action :: ClosesAfter(w, actions, last)
  }

  // ---- How the index grows -----------------------------------------------------------------------------

  /** Everything revealed since `ix` is used. */
  predicate Reached(ix: Index, e: Index) {
    e == Uses(ix, e.usedExternal, e.usedInternal)
  }

  predicate AtMost(a: Option<nat>, b: Option<nat>) {
    a.None? || (b.Some? && a.value <= b.value)
  }

  lemma GrowReaches(ix: Index, e: Index, b: Block)
    requires Reached(ix, e)
    ensures Reached(ix, Grow(e, b)) && AtMost(HighestUsed(e), HighestUsed(Grow(e, b)))
  {
  }

  lemma {:induction false} GrowAllReaches(ix: Index, e: Index, q: seq<Block>)
    requires Reached(ix, e)
    ensures Reached(ix, GrowAll(e, q)) && AtMost(HighestUsed(e), HighestUsed(GrowAll(e, q)))
    decreases |q|
  {
    if q != [] {
      GrowAllReaches(ix, e, q[..|q| - 1]);
      GrowReaches(ix, GrowAll(e, q[..|q| - 1]), q[|q| - 1]);
    }
  }

  lemma {:induction false} GrowAllCounts(e: Index, q: seq<Block>, b: Block)
    requires b in q || Grow(e, b) == e
    ensures Grow(GrowAll(e, q), b) == GrowAll(e, q)
    decreases |q|
  {
    if q != [] {
      var before, last := q[..|q| - 1], q[|q| - 1];
      assert q == before + [last];
      if b != last || Grow(e, b) == e { GrowAllCounts(e, before, b); }
    }
  }

  lemma {:induction false} GrowAllNoHigher(e: Index, q: seq<Block>)
    requires forall i | 0 <= i < |q| :: NoHigher(q[i], e)
    ensures HighestUsed(GrowAll(e, q)) == HighestUsed(e)
    decreases |q|
  {
    if q != [] {
      var before, last := q[..|q| - 1], q[|q| - 1];
      GrowAllNoHigher(e, before);
      assert NoHigher(last, e);
    }
  }

  // ---- What a run since the last return keeps ------------------------------------------------------------

  /** The scripts stem from an extension at `e`, made since the run began. */
  ghost predicate ExtendedAt(start: World, w: World, e: Index) {
    && Reached(start.sub.index, e) && AtMost(HighestUsed(e), HighestUsed(w.sub.index))
    && start.sub.count < w.sub.count == Window(e, w.sub.gap) <= MAX_SCRIPT_INDEX
    && WalletScripts(e, w.sub.count) <= w.sub.wallet
  }

  ghost predicate Unextended(start: World, w: World) {
    w.sub.count == start.sub.count && w.sub.wallet == start.sub.wallet
  }

  ghost predicate Since(start: World, w: World) {
    && w.sub.gap == start.sub.gap && w.sub.swap == start.sub.swap
    && start.sub.wallet <= w.sub.wallet && start.fetched <= w.fetched
    && Reached(start.sub.index, w.sub.index) && Counted(w)
    && (Unextended(start, w) || exists e :: ExtendedAt(start, w, e))
  }

  /** Fetching the queued blocks keeps the index in step. */
  lemma FetchSince(start: World, w: World, w': World)
    requires Since(start, w)
    requires w' == w.(sub := Fetched(w.sub), fetched := w.fetched + (set b | b in w.sub.queued))
    ensures Since(start, w')
  {
    GrowAllReaches(start.sub.index, w.sub.index, w.sub.queued);
    forall b | b in w'.fetched ensures Grow(w'.sub.index, b) == w'.sub.index {
      GrowAllCounts(w.sub.index, w.sub.queued, b);
    }
    if !Unextended(start, w) {
      var e :| ExtendedAt(start, w, e);
      assert ExtendedAt(start, w', e);
    }
  }

  lemma StepSince(start: World, w: World, a: Action)
    requires Since(start, w) && !Returns(w, a)
    ensures Since(start, Next(w, a))
  {
    var w' := Next(w, a);
    if a.Sync? && w.pending == {} && w.chain != [] {
      var f := w.(sub := Fetched(w.sub), fetched := w.fetched + (set b | b in w.sub.queued));
      FetchSince(start, w, f);
      SyncSince(start, f, w', Unfound(a.unobserved, w.sub.queued), |w.chain| - 1, a.depth);
    } else if !Unextended(start, w) {
      var e :| ExtendedAt(start, w, e);
      assert ExtendedAt(start, w', e);
    }
  }

  lemma SyncSince(start: World, f: World, w': World, missing: set<nat>, tip: nat, depth: nat)
    requires Since(start, f) && !Decide(f.sub, missing, tip, depth).Returned?
    requires w'.sub == Decided(f.sub, missing, tip, depth) && w'.fetched == f.fetched
    ensures Since(start, w')
  {
    if Decide(f.sub, missing, tip, depth).RescanAll? {
      assert start.sub.count <= f.sub.count;
      assert ExtendedAt(start, w', f.sub.index);
    } else if !Unextended(start, f) {
      var e :| ExtendedAt(start, f, e);
      assert ExtendedAt(start, w', e);
    }
  }

  lemma {:induction false} RunSince(start: World, w: World, actions: seq<Action>)
    requires Since(start, w) && StillRunning(w, actions)
    ensures Since(start, Run(w, actions))
    decreases |actions|
  {
    hide Since; hide Next; hide Returns;
    if actions != [] {
      RunSince(start, w, actions[..|actions| - 1]);
      StepSince(start, Run(w, actions[..|actions| - 1]), actions[|actions| - 1]);
    }
  }

  /** The blocks below `from` need not be emitted again. */
  ghost function BaseOf(w: World, from: nat): Base {
    Base(if from < |w.chain| then w.chain[..from] else w.chain, AllScripts(w.sub))
  }

  lemma UpdateBegins(w: World, from: nat)
    requires Rested(w)
    ensures var start := Next(w, Replay(from)); Inv(BaseOf(w, from), start) && Since(w, start)
  {
    var start := Next(w, Replay(from));
    var base := BaseOf(w, from);
    forall h: nat | h < |w.chain| ensures h in start.pending || Caught(start, w.chain[h], Due(base, start, h)) {
      if h < from {
        assert base.chain[..h + 1] == w.chain[..h + 1];
        assert Due(base, start, h) == {};
      }
    }
  }

  // ---- A missed block is missable ------------------------------------------------------------------------

  /** A block missed at the next return was canonical, unfetched and known to match when the update began. */
  lemma MissedIsOld(w: World, from: nat, v: World, last: Action, h: nat, k: Keychain, i: nat)
    requires Rested(w) && Inv(BaseOf(w, from), v) && Since(w, v) && Returns(v, last)
    requires h < |v.chain| && OfWallet(k, i) in v.chain[h].filter && v.chain[h] !in Next(v, last).fetched
    requires OfWallet(k, i) in AllScripts(v.sub)
    ensures h < from && h < |w.chain| && v.chain[..h + 1] == w.chain[..h + 1]
    ensures OfWallet(k, i) in AllScripts(w.sub) && v.chain[h] !in w.fetched
  {
    var base := BaseOf(w, from);
    if OfWallet(k, i) in Due(base, v, h) {
      PassCloses(base, v, last.unobserved, last.depth, h);
    }
    assert base.chain[..h + 1] == w.chain[..h + 1];
  }

  /** At a return the index is in step with the blocks and with the last extension. */
  lemma ReturnIndex(w: World, v: World, last: Action)
    requires Since(w, v) && Returns(v, last)
    ensures var v' := Next(v, last);
            Counted(v') && AtMost(HighestUsed(w.sub.index), HighestUsed(v'.sub.index)) && Reached(w.sub.index, v'.sub.index)
    ensures forall e | ExtendedAt(w, v, e) :: HighestUsed(Next(v, last).sub.index) == HighestUsed(e)
  {
    var f := v.(sub := Fetched(v.sub), fetched := v.fetched + (set b | b in v.sub.queued));
    FetchSince(w, v, f);
    var v' := Next(v, last);
    assert v'.sub.index == f.sub.index && v'.fetched == f.fetched;
    GrowAllReaches(w.sub.index, v.sub.index, v.sub.queued);
  }

  /** The scripts of an extension are due at every height. */
  lemma AddedAreDue(w: World, from: nat, v: World, e: Index, h: nat)
    requires Rested(w) && Since(w, v) && ExtendedAt(w, v, e)
    ensures Added(w, e) <= Due(BaseOf(w, from), v, h)
  {
  }

  /** A canonical block up to this height that an extension matches is fetched. */
  lemma LowerIsFetched(w: World, from: nat, v: World, last: Action, e: Index, h: nat, g: nat)
    requires Rested(w) && Inv(BaseOf(w, from), v) && Since(w, v) && Returns(v, last) && ExtendedAt(w, v, e)
    requires h < |v.chain| && h < |w.chain| && v.chain[..h + 1] == w.chain[..h + 1]
    requires g <= h && Matches(w.chain[g], Added(w, e))
    ensures w.chain[g] in Next(v, last).fetched
  {
    hide Inv; hide Since; hide ExtendedAt; hide Rested; hide Due; hide Next; hide Outcomes; hide Added;
    var base := BaseOf(w, from);
    assert v.chain[g] == v.chain[..h + 1][g] == w.chain[g];
    AddedAreDue(w, from, v, e, g);
    assert Matches(v.chain[g], Due(base, v, g));
    PassCloses(base, v, last.unobserved, last.depth, g);
  }

  /** So it uses no higher index. */
  lemma LowerIsCounted(w: World, from: nat, v: World, last: Action, e: Index, h: nat, g: nat)
    requires Rested(w) && Inv(BaseOf(w, from), v) && Since(w, v) && Returns(v, last) && ExtendedAt(w, v, e)
    requires h < |v.chain| && h < |w.chain| && v.chain[..h + 1] == w.chain[..h + 1]
    requires g <= h && Matches(w.chain[g], Added(w, e))
    ensures w.chain[g] in Next(v, last).fetched && NoHigher(w.chain[g], e)
  {
    hide Inv; hide Since; hide ExtendedAt; hide Rested; hide Next; hide Returns; hide Added; hide Matches;
    LowerIsFetched(w, from, v, last, e, h, g);
    ReturnIndex(w, v, last);
    var ix := Next(v, last).sub.index;
    assert Grow(ix, w.chain[g]) == ix && HighestUsed(ix) == HighestUsed(e);
  }

  lemma UnextendedCatches(w: World, v: World, last: Action, i: nat)
    requires Rested(w) && Unextended(w, v) && w.sub.gap == v.sub.gap && Returns(v, last)
    requires WithinGap(Next(v, last).sub.index, v.sub.gap, i)
    ensures WithinGap(w.sub.index, w.sub.gap, i)
  {
  }

  lemma MissedIsMissable(w: World, from: nat, v: World, last: Action, h: nat, k: Keychain, i: nat)
    requires Rested(w) && GapClosed(w) && Inv(BaseOf(w, from), v) && Since(w, v) && Returns(v, last)
    requires h < |v.chain| && WithinGap(Next(v, last).sub.index, v.sub.gap, i)
    requires OfWallet(k, i) in v.chain[h].filter && v.chain[h] !in Next(v, last).fetched
    ensures Missable(w, from)
  {
    assert v.sub.gap <= v.sub.count && Next(v, last).sub.gap == v.sub.gap;
    ReturnCovers(v, last, k, i);
    MissedIsOld(w, from, v, last, h, k, i);
    assert v.chain[h] == v.chain[..h + 1][h] == w.chain[h];
    if Unextended(w, v) {
      UnextendedCatches(w, v, last, i);
      assert false;
    }
    var e :| ExtendedAt(w, v, e);
    ReturnIndex(w, v, last);
    forall g: nat | g <= h && Matches(w.chain[g], Added(w, e))
      ensures w.chain[g] in Next(v, last).fetched && NoHigher(w.chain[g], e)
    {
      hide *;
      LowerIsCounted(w, from, v, last, e, h, g);
    }
    hide Inv; hide Since; hide Next; hide Returns; hide Rested; hide GapClosed;
    assert Uses(w.sub.index, e.usedExternal, e.usedInternal) == e;
    assert MissableAt(w, from, e.usedExternal, e.usedInternal, h, k, i);
  }

  // ---- A missable block is missed --------------------------------------------------------------------------

  lemma {:induction false} RunSplits(w: World, a: seq<Action>, b: seq<Action>)
    requires StillRunning(w, a) && StillRunning(Run(w, a), b)
    ensures Run(w, a + b) == Run(Run(w, a), b) && StillRunning(w, a + b)
    decreases |b|
  {
    hide Next; hide Returns;
    if b == [] {
      assert a + b == a;
    } else {
      var n := |b| - 1;
      assert (a + b)[..|a + b| - 1] == a + b[..n];
      assert (a + b)[|a + b| - 1] == b[n];
      RunSplits(w, a, b[..n]);
    }
  }

  /** A new block after height `h` that uses these indices and pays to the script. */
  function Payment(h: nat, x: Script, external: Option<nat>, internal: Option<nat>): Block {
    Block(0, h + 1, {x}, external, internal, {})
  }

  /** The first `n` filters of the chain, emitted in order. */
  function EmitFirst(chain: seq<Block>, n: nat): seq<Action>
    requires n <= |chain|
    decreases n
  {
    if n == 0 then [] else EmitFirst(chain, n - 1) + [Emit(chain[n - 1])]
  }

  /** Those of the first `n` blocks that match. */
  function Matching(chain: seq<Block>, n: nat, scripts: set<Script>): (q: seq<Block>)
    requires n <= |chain|
    ensures forall b | b in q :: b in chain[..n] && Matches(b, scripts)
    decreases n
  {
    if n == 0 then []
    else
      var q := Matching(chain, n - 1, scripts);
      assert forall b | b in chain[..n - 1] :: b in chain[..n];
      assert chain[n - 1] in chain[..n];
      if Matches(chain[n - 1], scripts) then q + [chain[n - 1]] else q
  }

  /** One filter of an unchanged chain, emitted again. */
  lemma ReplayEmits(w: World, b: Block, n: nat)
    requires n < |w.chain| && w.chain[n] == b && b.height == n && w.pending == Heights(|w.chain|, n) && b !in w.sub.queued
    requires w.sub.incremental.Some? && !w.sub.incremental.value.changed && n <= w.sub.incremental.value.covered
    ensures var scripts := w.sub.incremental.value.newScripts;
            Next(w, Emit(b)) == w.(sub := w.sub.(queued := if Matches(b, scripts) then w.sub.queued + [b] else w.sub.queued),
                                   pending := Heights(|w.chain|, n + 1))
  {
    assert Heights(|w.chain|, n) - {n} == Heights(|w.chain|, n + 1);
  }

  /** A replay over an unchanged chain queues exactly the blocks that match a new script. */
  lemma {:induction false} ReplayQueues(w: World, n: nat)
    requires Placed(w.chain) && n <= |w.chain| && w.pending == Heights(|w.chain|, 0) && w.sub.queued == []
    requires w.sub.incremental.Some? && !w.sub.incremental.value.changed && w.sub.incremental.value.covered == |w.chain| - 1
    ensures var q := Matching(w.chain, n, w.sub.incremental.value.newScripts);
            Run(w, EmitFirst(w.chain, n)) == w.(sub := w.sub.(queued := q), pending := Heights(|w.chain|, n))
    ensures StillRunning(w, EmitFirst(w.chain, n))
    decreases n
  {
    hide Next; hide Matches;
    if n > 0 {
      ReplayQueues(w, n - 1);
      var before := EmitFirst(w.chain, n - 1);
      var b := w.chain[n - 1];
      assert (before + [Emit(b)])[..|before|] == before;
      var v := Run(w, before);
      assert forall c | c in w.chain[..n - 1] :: c.height < n - 1;
      assert b !in v.sub.queued;
      ReplayEmits(v, b, n - 1);
    }
  }

  /** The block arrives, is fetched and extends the scripts. */
  function Arrival(c: Block): seq<Action> {
    [Change(Reorganized([c])), Emit(c), Sync({}, 0)]
  }

  lemma ThreeSteps(w: World, a: Action, b: Action, c: Action)
    ensures Run(w, [a, b, c]) == Next(Next(Next(w, a), b), c)
    ensures StillRunning(w, [a, b, c]) <==> !Returns(w, a) && !Returns(Next(w, a), b) && !Returns(Next(Next(w, a), b), c)
  {
    hide Next; hide Returns;
    var s := [a, b, c];
    assert s[..2] == [a, b] && s[..2][..1] == [a] && s[..2][..1][..0] == [];
    assert Run(w, s[..2][..1]) == Next(w, a);
    assert StillRunning(w, s[..2][..1]) <==> !Returns(w, a);
    assert Run(w, s[..2]) == Next(Next(w, a), b);
    assert StillRunning(w, s[..2]) <==> !Returns(w, a) && !Returns(Next(w, a), b);
  }

  lemma PaymentConnects(w: World, from: nat, h: nat, c: Block)
    requires Rested(w) && h < |w.chain| && h < from && c.height == h + 1
    ensures Next(Next(w, Replay(from)), Change(Reorganized([c]))) == World(w.sub, w.chain[..h + 1] + [c], {h + 1}, w.fetched)
  {
    var start := Next(w, Replay(from));
    assert InPlace(start.chain, [c]);
    var w1 := Next(start, Change(Reorganized([c])));
    assert w1.pending == {h + 1};
  }

  lemma PaymentEmits(w: World, h: nat, c: Block, x: Script)
    requires w.chain != [] && |w.chain| == h + 2 && w.chain[h + 1] == c && c.height == h + 1 && w.pending == {h + 1}
    requires w.sub.queued == [] && w.sub.incremental.None? && x in AllScripts(w.sub) && x in c.filter
    ensures Next(w, Emit(c)) == w.(sub := w.sub.(queued := [c]), pending := {})
  {
    assert Matches(c, AllScripts(w.sub));
    assert {h + 1} - {h + 1 as nat} == {};
  }

  lemma PaymentExtends(w: World, c: Block, e: Index)
    requires w.chain != [] && w.pending == {} && w.sub.queued == [c] && e == Grow(w.sub.index, c)
    requires HighestUsed(e).Some? && w.sub.count < Window(e, w.sub.gap) <= MAX_SCRIPT_INDEX
    ensures !Returns(w, Sync({}, 0))
    ensures Next(w, Sync({}, 0)) ==
            World(Extended(w.sub.(queued := [], index := e), |w.chain| - 1, Window(e, w.sub.gap)), w.chain, Heights(|w.chain|, 0), w.fetched + {c})
  {
    var one := [c];
    assert one[..0] == [];
    assert GrowAll(w.sub.index, one) == e;
    UnfoundShrinks({}, one);
    assert (set b | b in one) == {c};
  }

  lemma Arrives(w: World, from: nat, external: Option<nat>, internal: Option<nat>, h: nat, k: Keychain, i: nat)
    requires Rested(w) && MissableAt(w, from, external, internal, h, k, i)
    ensures var c := Payment(h, OfWallet(k, i), external, internal);
            var e := Uses(w.sub.index, external, internal);
            var start := Next(w, Replay(from));
            var n := Window(e, w.sub.gap);
            && StillRunning(start, Arrival(c))
            && Run(start, Arrival(c)) == World(Extended(w.sub.(index := e), h + 1, n), w.chain[..h + 1] + [c], Heights(h + 2, 0), w.fetched + {c})
  {
    hide Next; hide Run; hide StillRunning; hide Outcomes; hide Matches; hide Added; hide Extended;
    var x := OfWallet(k, i);
    var c := Payment(h, x, external, internal);
    var e := Uses(w.sub.index, external, internal);
    var start := Next(w, Replay(from));
    PaymentConnects(w, from, h, c);
    var w1 := Next(start, Change(Reorganized([c])));
    PaymentEmits(w1, h, c, x);
    var w2 := Next(w1, Emit(c));
    UsedWhenWider(w, e);
    PaymentExtends(w2, c, e);
    ThreeSteps(start, Change(Reorganized([c])), Emit(c), Sync({}, 0));
    assert w2.sub.(queued := [], index := e) == w.sub.(index := e);
  }

  /** A window wider than the present one stems from a use. */
  lemma UsedWhenWider(w: World, e: Index)
    requires Rested(w) && w.sub.count < Window(e, w.sub.gap)
    ensures HighestUsed(e).Some?
  {
  }

  /** None of the blocks the replay queues uses a higher index, and the missable block is not among them. */
  lemma ReplayIsLow(w: World, from: nat, external: Option<nat>, internal: Option<nat>, h: nat, k: Keychain, i: nat)
    requires Rested(w) && MissableAt(w, from, external, internal, h, k, i)
    ensures var e := Uses(w.sub.index, external, internal);
            var chain := w.chain[..h + 1] + [Payment(h, OfWallet(k, i), external, internal)];
            var q := Matching(chain, h + 2, Added(w, e));
            w.chain[h] !in q && forall j | 0 <= j < |q| :: NoHigher(q[j], e)
  {
    var e := Uses(w.sub.index, external, internal);
    var c := Payment(h, OfWallet(k, i), external, internal);
    var chain := w.chain[..h + 1] + [c];
    var q := Matching(chain, h + 2, Added(w, e));
    forall j | 0 <= j < |q| ensures NoHigher(q[j], e) {
      var b := q[j];
      assert b in q && b in chain[..h + 2];
      var g :| 0 <= g < h + 2 && chain[g] == b;
      if g <= h {
        assert b == w.chain[g];
        if b in w.fetched { assert Grow(w.sub.index, b) == w.sub.index; }
      }
    }
  }

  /** A replay that raises no index returns. */
  lemma ReplayReturns(w: World, e: Index, q: seq<Block>)
    requires w.chain != [] && w.pending == {} && w.sub.index == e && w.sub.queued == q && HighestUsed(e).Some?
    requires w.sub.count == Window(e, w.sub.gap) <= MAX_SCRIPT_INDEX
    requires forall j | 0 <= j < |q| :: NoHigher(q[j], e)
    ensures Returns(w, Sync({}, 0))
    ensures var w' := Next(w, Sync({}, 0));
            w'.chain == w.chain && w'.fetched == w.fetched + (set b | b in q) && w'.sub.gap == w.sub.gap && HighestUsed(w'.sub.index) == HighestUsed(e)
  {
    GrowAllNoHigher(e, q);
    UnfoundShrinks({}, q);
  }

  lemma MissableIsMissed(w: World, from: nat, external: Option<nat>, internal: Option<nat>, h: nat, k: Keychain, i: nat)
    requires Rested(w) && MissableAt(w, from, external, internal, h, k, i)
    ensures !NextCloses(Next(w, Replay(from)))
  {
    hide Next; hide Run; hide StillRunning; hide Returns; hide Outcomes; hide Matches; hide NoHigher;
    var c := Payment(h, OfWallet(k, i), external, internal);
    var e := Uses(w.sub.index, external, internal);
    var start := Next(w, Replay(from));
    var chain := w.chain[..h + 1] + [c];
    Arrives(w, from, external, internal, h, k, i);
    UsedWhenWider(w, e);
    var v := Run(start, Arrival(c));
    assert v.sub.incremental == Some(Incremental(h + 1, false, Added(w, e)));
    ReplayQueues(v, h + 2);
    ReplayIsLow(w, from, external, internal, h, k, i);
    var q := Matching(chain, h + 2, Added(w, e));
    var actions := Arrival(c) + EmitFirst(chain, h + 2);
    RunSplits(start, Arrival(c), EmitFirst(chain, h + 2));
    var u := Run(start, actions);
    assert u.pending == {} && u.sub.queued == q;
    ReplayReturns(u, e, q);
    var u' := Next(u, Sync({}, 0));
    assert u'.chain[h] == w.chain[h] && w.chain[h] !in u'.fetched;
    assert WithinGap(u'.sub.index, u'.sub.gap, i);
    assert !ClosesAfter(start, actions, Sync({}, 0));
  }

  // ---- The exact condition --------------------------------------------------------------------------------------

  /**
   From the state one update left behind, every run of the next update returns with
   the gap closed exactly when no block is missable.
   */
  lemma NextReturnClosesIff(w: World, from: nat)
    requires Rested(w) && GapClosed(w)
    ensures NextCloses(Next(w, Replay(from))) <==> !Missable(w, from)
  {
    var start := Next(w, Replay(from));
    UpdateBegins(w, from);
    if Missable(w, from) {
      var external: Option<nat>, internal: Option<nat>, h: nat, k: Keychain, i: nat :| MissableAt(w, from, external, internal, h, k, i);
      MissableIsMissed(w, from, external, internal, h, k, i);
    } else {
      forall actions: seq<Action>, last: Action ensures ClosesAfter(start, actions, last) {
        if StillRunning(start, actions) && Returns(Run(start, actions), last) {
          RunCloses(w, from, actions, last);
        }
      }
    }
  }

  lemma RunCloses(w: World, from: nat, actions: seq<Action>, last: Action)
    requires Rested(w) && GapClosed(w) && !Missable(w, from)
    requires StillRunning(Next(w, Replay(from)), actions) && Returns(Run(Next(w, Replay(from)), actions), last)
    ensures GapClosed(Next(Run(Next(w, Replay(from)), actions), last))
  {
    var start := Next(w, Replay(from));
    UpdateBegins(w, from);
    RunKeeps(BaseOf(w, from), start, actions);
    RunSince(w, start, actions);
    var v := Run(start, actions);
    var v' := Next(v, last);
    forall h: nat, k: Keychain, i: nat | h < |v'.chain| && WithinGap(v'.sub.index, v'.sub.gap, i) && OfWallet(k, i) in v'.chain[h].filter
      ensures v'.chain[h] in v'.fetched
    {
      if v'.chain[h] !in v'.fetched { MissedIsMissable(w, from, v, last, h, k, i); }
    }
  }

  // ---- Every return leaves such a state -------------------------------------------------------------------------

  /** The scripts reach to the gap limit or to the end of the gap. */
  ghost predicate Begins(w: World) {
    && (w.sub.count == w.sub.gap || w.sub.count == Window(w.sub.index, w.sub.gap))
    && Sane(w.sub.index) && SwapApart(w.sub)
  }

  /** Any return, of the first update or of a later one, ends in a rested state. */
  lemma ReturnRests(base: Base, w: World, v: World, last: Action)
    requires Begins(w) && Inv(base, v) && Since(w, v) && Returns(v, last)
    ensures Rested(Next(v, last))
  {
    var v' := Next(v, last);
    ReturnIndex(w, v, last);
    if !Unextended(w, v) {
      var e :| ExtendedAt(w, v, e);
      assert HighestUsed(v'.sub.index) == HighestUsed(e);
    }
    assert v'.sub.count == Window(v'.sub.index, v'.sub.gap);
  }

  /** The first update returns in a rested state with the gap closed. */
  lemma FirstReturn(w: World, index: Index, gap: nat, swap: set<Script>, actions: seq<Action>, last: Action)
    requires Starts(w, index, gap, swap) && Sane(index) && (forall x | x in swap :: x.OfSwap?)
    requires StillRunning(w, actions) && Returns(Run(w, actions), last)
    ensures var v := Next(Run(w, actions), last); Rested(v) && GapClosed(v)
  {
    ScanReachesFixpoint(w, index, gap, swap, actions, last);
    StartsCovered(w, index, gap, swap);
    assert Since(w, w);
    RunKeeps(NOTHING, w, actions);
    RunSince(w, w, actions);
    ReturnRests(NOTHING, w, Run(w, actions), last);
  }

  /** So does every later one, unless a block was missable. */
  lemma LaterReturn(w: World, from: nat, actions: seq<Action>, last: Action)
    requires Rested(w) && GapClosed(w)
    requires StillRunning(Next(w, Replay(from)), actions) && Returns(Run(Next(w, Replay(from)), actions), last)
    ensures var v := Next(Run(Next(w, Replay(from)), actions), last); Rested(v) && (!Missable(w, from) ==> GapClosed(v))
  {
    var start := Next(w, Replay(from));
    UpdateBegins(w, from);
    RunKeeps(BaseOf(w, from), start, actions);
    RunSince(w, start, actions);
    ReturnRests(BaseOf(w, from), w, Run(start, actions), last);
    if !Missable(w, from) { RunCloses(w, from, actions, last); }
  }

  // ---- Simpler conditions ------------------------------------------------------------------------------------------

  /** A return has caught all, lookahead included, exactly when each block matching an untested lookahead script is fetched. */
  lemma LookaheadCaughtIff(w: World, a: Action)
    requires Inv(NOTHING, w) && Returns(w, a)
    ensures var w' := Next(w, a);
            AllCaught(w') <==> forall h: nat | h < |w.chain| && Matches(w.chain[h], Lookahead(w'.sub) - AllScripts(w.sub)) :: w.chain[h] in w'.fetched
  {
    var w' := Next(w, a);
    assert AllScripts(w'.sub) == AllScripts(w.sub) + Lookahead(w'.sub);
    forall h: nat | h < |w.chain| && Matches(w.chain[h], AllScripts(w.sub)) ensures w.chain[h] in w'.fetched {
      assert Due(NOTHING, w, h) == AllScripts(w.sub);
      PassCloses(NOTHING, w, a.unobserved, a.depth, h);
    }
  }

  /** When all is caught nothing is missable, and the invariant of a first update holds again. */
  lemma CaughtCloses(w: World, from: nat)
    requires Rested(w) && GapClosed(w) && AllCaught(w)
    ensures Inv(NOTHING, w) && NextCloses(Next(w, Replay(from)))
  {
    NextReturnClosesIff(w, from);
    assert !Missable(w, from);
    forall h: nat | h < |w.chain| ensures Caught(w, w.chain[h], Due(NOTHING, w, h)) {
      assert Due(NOTHING, w, h) == AllScripts(w.sub);
    }
  }

  /** A check for the caller: the lookahead stays below the scripts scanned for on both keychains. */
  lemma CallerCheck(w: World, a: Action, from: nat)
    requires Inv(NOTHING, w) && Returns(w, a) && w.sub.gap <= w.sub.count && Rested(Next(w, a))
    requires var ix := Next(w, a).sub.index;
             Bound(ix, External, ix.lookahead) <= w.sub.count && Bound(ix, Internal, ix.lookahead) <= w.sub.count
    ensures AllCaught(Next(w, a)) && Inv(NOTHING, Next(w, a)) && NextCloses(Next(Next(w, a), Replay(from)))
  {
    var w' := Next(w, a);
    forall x | x in Lookahead(w'.sub) ensures x in AllScripts(w.sub) {
      assert x == OfWallet(x.keychain, x.index);
      assert x.keychain == External || x.keychain == Internal;
    }
    assert Lookahead(w'.sub) - AllScripts(w.sub) == {};
    LookaheadCaughtIff(w, a);
    ReturnClosesGap(w, a);
    CaughtCloses(w', from);
  }

  /** The unfetched blocks that are not emitted again match no wallet script the subscriber lacks. */
  ghost predicate Familiar(w: World, from: nat) {
    forall h: nat, k: Keychain, i: nat | h < |w.chain| && h < from && w.chain[h] !in w.fetched && OfWallet(k, i) in w.chain[h].filter ::
      OfWallet(k, i) in w.sub.wallet
  }

  /** An unfetched block matches a script of the subscriber below the index limit. */
  ghost predicate Untested(w: World, from: nat, h: nat, k: Keychain, i: nat) {
    h < |w.chain| && h < from && w.chain[h] !in w.fetched && OfWallet(k, i) in AllScripts(w.sub) && OfWallet(k, i) in w.chain[h].filter && i < MAX_SCRIPT_INDEX
  }

  /** On familiar blocks the condition is that every block matching a script of the subscriber is fetched. */
  lemma FamiliarClosesIff(w: World, from: nat)
    requires Rested(w) && GapClosed(w) && Familiar(w, from)
    ensures NextCloses(Next(w, Replay(from))) <==> !exists h: nat, k: Keychain, i: nat :: Untested(w, from, h, k, i)
  {
    NextReturnClosesIff(w, from);
    if Missable(w, from) {
      var external: Option<nat>, internal: Option<nat>, h: nat, k: Keychain, i: nat :| MissableAt(w, from, external, internal, h, k, i);
      assert Untested(w, from, h, k, i);
    }
    if h: nat, k: Keychain, i: nat :| Untested(w, from, h, k, i) {
      UntestedIsMissable(w, from, h, k, i);
    }
  }

  lemma UntestedIsMissable(w: World, from: nat, h: nat, k: Keychain, i: nat)
    requires Rested(w) && GapClosed(w) && Familiar(w, from) && Untested(w, from, h, k, i)
    ensures Missable(w, from)
  {
    assert !WithinGap(w.sub.index, w.sub.gap, i);
    var external := Some(i - w.sub.gap);
    var e := Uses(w.sub.index, external, None);
    assert Window(e, w.sub.gap) == i + 1;
    forall g: nat | g <= h && w.chain[g] !in w.fetched ensures !Matches(w.chain[g], Added(w, e)) {
      forall x | x in Added(w, e) ensures x !in w.chain[g].filter {
        assert x == OfWallet(x.keychain, x.index);
      }
    }
    assert MissableAt(w, from, external, None, h, k, i);
  }

  /** The block also matches a script that the subscriber lacks, of no higher index. */
  ghost predicate Doubled(w: World, h: nat, i: nat)
    requires h < |w.chain|
  {
    exists k: Keychain, j: nat :: j <= i && OfWallet(k, j) in w.chain[h].filter && OfWallet(k, j) !in w.sub.wallet
  }

  lemma MissableIsSingle(w: World, from: nat, external: Option<nat>, internal: Option<nat>, h: nat, k: Keychain, i: nat)
    requires MissableAt(w, from, external, internal, h, k, i)
    ensures Untested(w, from, h, k, i) && !Doubled(w, h, i)
  {
    var e := Uses(w.sub.index, external, internal);
    forall k: Keychain, j: nat | j <= i && OfWallet(k, j) in w.chain[h].filter ensures OfWallet(k, j) in w.sub.wallet {
      assert OfWallet(k, j) in WalletScripts(e, Window(e, w.sub.gap));
    }
  }

  /** Such a block is not missed, for the extension that would bring the known script within the gap tests it for the other. */
  lemma SecondMatchSaves(w: World, from: nat)
    requires Rested(w) && GapClosed(w)
    requires forall h: nat, k: Keychain, i: nat | Untested(w, from, h, k, i) :: Doubled(w, h, i)
    ensures NextCloses(Next(w, Replay(from)))
  {
    hide Rested; hide GapClosed; hide NextCloses; hide Next; hide Untested; hide Doubled; hide MissableAt;
    NextReturnClosesIff(w, from);
    forall external: Option<nat>, internal: Option<nat>, h: nat, k: Keychain, i: nat | MissableAt(w, from, external, internal, h, k, i)
      ensures Untested(w, from, h, k, i) && h < |w.chain| && !Doubled(w, h, i)
    {
      MissableIsSingle(w, from, external, internal, h, k, i);
    }
  }

  // ---- A second update that misses a block ----------------------------------------------------------------

  const OLD_BLOCK: Block := Block(0, 0, {OfWallet(External, 1)}, None, None, {})
  const NEXT_BLOCK: Block := Block(1, 1, {}, None, None, {})
  const TIP_BLOCK: Block := Block(2, 2, {}, None, None, {})
  const CHAIN: seq<Block> := [OLD_BLOCK, NEXT_BLOCK, TIP_BLOCK]
  const EMPTY_INDEX: Index := Index(None, None, 0, 0, 2)
  const W0: World := World(Subscriber(WalletScripts(EMPTY_INDEX, 1), {}, [], EMPTY_INDEX, 1, 1, None, {}), CHAIN, Heights(3, 0), {})
  const FIRST_PASS: seq<Action> := [Emit(OLD_BLOCK), Emit(NEXT_BLOCK), Emit(TIP_BLOCK)]

  /** The first pass tests for index 0 only and matches nothing. */
  lemma FirstPass()
    ensures StillRunning(W0, FIRST_PASS) && Run(W0, FIRST_PASS) == W0.(pending := {})
  {
    assert !Matches(OLD_BLOCK, AllScripts(W0.sub));
    var w1 := Next(W0, Emit(OLD_BLOCK));
    assert w1 == W0.(pending := Heights(3, 1));
    var w2 := Next(w1, Emit(NEXT_BLOCK));
    assert w2 == W0.(pending := Heights(3, 2));
    var w3 := Next(w2, Emit(TIP_BLOCK));
    assert w3 == W0.(pending := {});
    ThreeSteps(W0, Emit(OLD_BLOCK), Emit(NEXT_BLOCK), Emit(TIP_BLOCK));
  }

  lemma FirstUpdate() returns (w: World)
    ensures Returns(Run(W0, FIRST_PASS), Sync({}, 0)) && w == Next(Run(W0, FIRST_PASS), Sync({}, 0))
    ensures w.sub.index == EMPTY_INDEX && w.sub.gap == 1 && w.sub.count == 1 && w.chain == CHAIN && w.fetched == {}
    ensures WalletScripts(EMPTY_INDEX, 2) <= w.sub.wallet
  {
    FirstPass();
    w := Next(Run(W0, FIRST_PASS), Sync({}, 0));
  }

  /** A use of index 0 brings the old block's script within the gap and adds nothing new. */
  lemma OldBlockIsMissable(w: World)
    requires w.sub.index == EMPTY_INDEX && w.sub.gap == 1 && w.sub.count == 1 && w.chain == CHAIN && w.fetched == {}
    requires WalletScripts(EMPTY_INDEX, 2) <= w.sub.wallet
    ensures Missable(w, TipCycleRescanHeight(2))
  {
    var e := Uses(EMPTY_INDEX, Some(0), None);
    assert e == Index(Some(0), None, 0, 0, 2);
    assert Window(e, 1) == 2;
    forall x | x in WalletScripts(e, 2) ensures x in w.sub.wallet {
      assert x == OfWallet(x.keychain, x.index);
      assert x in WalletScripts(EMPTY_INDEX, 2);
    }
    assert Added(w, e) == {};
    assert OfWallet(External, 1) in WalletScripts(EMPTY_INDEX, 2);
    assert MissableAt(w, 1, Some(0), None, 0, External, 1);
  }

  /**
   A second `update` of the same subscriber can return without having fetched a
   block within the gap, two blocks below the tip: the lookahead put its script
   among those already tested, and the caller's own replay begins above it.
   */
  lemma SecondUpdateMissesBlock() returns (w: World)
    ensures Starts(W0, EMPTY_INDEX, 1, {}) && StillRunning(W0, FIRST_PASS) && Returns(Run(W0, FIRST_PASS), Sync({}, 0))
    ensures w == Next(Run(W0, FIRST_PASS), Sync({}, 0)) && Rested(w) && GapClosed(w)
    ensures |w.chain| == 3 && !NextCloses(Next(w, Replay(TipCycleRescanHeight(|w.chain| - 1))))
  {
    hide Next; hide Run; hide StillRunning; hide Returns; hide Rested; hide GapClosed; hide Missable; hide NextCloses;
    FirstPass();
    w := FirstUpdate();
    FirstReturn(W0, EMPTY_INDEX, 1, {}, FIRST_PASS, Sync({}, 0));
    OldBlockIsMissable(w);
    NextReturnClosesIff(w, TipCycleRescanHeight(2));
  }
}
