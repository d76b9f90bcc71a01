/**
 The recovery scan over compact filters: a subscriber tests every block's filter
 against its scripts, fetches the blocks that match, extends its scripts past the
 highest used index, and replays the filters of covered heights against the new
 scripts only.
 */
module GapScan {
  import opened RecordStore

  const MAX_SCRIPT_INDEX: nat := 100_000

  datatype Keychain = External | Internal

  datatype Script = OfWallet(keychain: Keychain, index: nat) | OfSwap(session: nat)

  /** A block: the scripts its filter matches, the highest indices it uses and the transactions it holds. */
  datatype Block = Block(hash: nat, height: nat, filter: set<Script>, usedExternal: Option<nat>, usedInternal: Option<nat>, txids: set<nat>)

  /** The wallet's script index: the highest used index and the number revealed, by keychain. */
  datatype Index = Index(usedExternal: Option<nat>, usedInternal: Option<nat>, revealedExternal: nat, revealedInternal: nat, lookahead: nat)

  function Later(a: Option<nat>, b: Option<nat>): Option<nat> {
    if a.None? then b else if b.None? then a else if a.value < b.value then b else a
  }

  function Raised(n: nat, used: Option<nat>): nat {
    if used.Some? && used.value > n then used.value else n
  }

  function HighestUsed(ix: Index): Option<nat> {
    Later(ix.usedExternal, ix.usedInternal)
  }

  /** The index after a use of these indices: each use also reveals. */
  function Uses(ix: Index, external: Option<nat>, internal: Option<nat>): Index {
    Index(Later(ix.usedExternal, external), Later(ix.usedInternal, internal),
          Raised(ix.revealedExternal, external), Raised(ix.revealedInternal, internal), ix.lookahead)
  }

  /** The index after one fetched block. */
  function Grow(ix: Index, b: Block): Index {
    Uses(ix, b.usedExternal, b.usedInternal)
  }

  function GrowAll(ix: Index, q: seq<Block>): Index
    decreases |q|
  {
    if q == [] then ix else Grow(GrowAll(ix, q[..|q| - 1]), q[|q| - 1])
  }

  function Unfound(txids: set<nat>, q: seq<Block>): set<nat>
    decreases |q|
  {
    if q == [] then txids else Unfound(txids, q[..|q| - 1]) - q[|q| - 1].txids
  }

  function Bound(ix: Index, k: Keychain, n: nat): nat {
    (if k == External then ix.revealedExternal else ix.revealedInternal) + n
  }

  /** `wallet_scripts`: on each keychain, every script below the revealed count plus `n`. */
  function WalletScripts(ix: Index, n: nat): (r: set<Script>)
    ensures forall k: Keychain, i: nat :: OfWallet(k, i) in r <==> i < Bound(ix, k, n)
    ensures forall s | s in r :: s.OfWallet?
  {
    (set i: nat | i < Bound(ix, External, n) :: OfWallet(External, i)) + (set i: nat | i < Bound(ix, Internal, n) :: OfWallet(Internal, i))
  }

  datatype ScanError = InvalidScriptIndex

  /** `extended_recovery_script_count`. */
  function ExtendedCount(used: Option<nat>, count: nat, gap: nat): (r: Result<nat, ScanError>)
    ensures r.Ok? ==> r.value >= count && (used.Some? ==> r.value >= used.value + 1 + gap)
    ensures r.Ok? && r.value != count ==> r.value <= MAX_SCRIPT_INDEX && used.Some? && r.value == used.value + 1 + gap
    ensures r.Err? <==> used.Some? && used.value + 1 + gap > MAX_SCRIPT_INDEX
  {
    if used.None? then Ok(count)
    else
      var required := used.value + 1 + gap;
      if required > MAX_SCRIPT_INDEX then Err(InvalidScriptIndex)
      else Ok(if required > count then required else count)
  }

  datatype Incremental = Incremental(covered: nat, changed: bool, newScripts: set<Script>)

  /** The subscriber's own state. */
  datatype Subscriber = Subscriber(
    wallet: set<Script>, swap: set<Script>, queued: seq<Block>, index: Index, gap: nat, count: nat,
    incremental: Option<Incremental>, rescanned: set<nat>)

  function AllScripts(s: Subscriber): set<Script> {
    s.wallet + s.swap
  }

  /** `scripts_for_filter`: covered heights of an unchanged chain are tested for the new scripts only. */
  function ScriptsFor(s: Subscriber, height: nat): set<Script> {
    if s.incremental.Some? && height <= s.incremental.value.covered && !s.incremental.value.changed
    then s.incremental.value.newScripts else AllScripts(s)
  }

  predicate Matches(b: Block, scripts: set<Script>) {
    exists x | x in scripts :: x in b.filter
  }

  function AfterFilter(s: Subscriber, b: Block): Subscriber {
    if Matches(b, ScriptsFor(s, b.height)) && b !in s.queued
    then s.(queued := s.queued + [b]) else s
  }

  /** A chain event: blocks connected from a height on, or a fork that does not matter. */
  datatype ChainEvent = Connected(block: Block) | Reorganized(accepted: seq<Block>) | ForkAdded

  function AfterEvent(s: Subscriber, e: ChainEvent): Subscriber {
    if s.incremental.None? then s
    else
      var scan := s.incremental.value;
      var changes := match e
        case Connected(b) => b.height <= scan.covered
        case Reorganized(_) => true
        case ForkAdded => false;
      s.(incremental := Some(scan.(changed := scan.changed || changes)))
  }

  datatype Outcome = RescanFrom(height: nat) | RescanAll | Returned | Failed(error: ScanError)

  function Fetched(s: Subscriber): Subscriber {
    s.(queued := [], index := GrowAll(s.index, s.queued))
  }

  function Decide(s: Subscriber, missing: set<nat>, tip: nat, depth: nat): Outcome {
    if !(missing <= s.rescanned) then RescanFrom(if tip < depth then 0 else tip - depth)
    else
      match ExtendedCount(HighestUsed(s.index), s.count, s.gap)
      case Err(e) => Failed(e)
      case Ok(required) => if required > s.count then RescanAll else Returned
  }

  function Extended(s: Subscriber, tip: nat, required: nat): Subscriber {
    var newScripts := WalletScripts(s.index, required) - s.wallet;
    s.(count := required, wallet := s.wallet + newScripts, incremental := Some(Incremental(tip, false, newScripts)))
  }

  function Lookahead(s: Subscriber): set<Script> {
    WalletScripts(s.index, s.index.lookahead)
  }

  /** The state the decision leads to, once the queued blocks are fetched. */
  function Decided(s: Subscriber, missing: set<nat>, tip: nat, depth: nat): Subscriber {
    match Decide(s, missing, tip, depth)
    case RescanFrom(_) => s.(rescanned := s.rescanned + missing, incremental := None)
    case RescanAll => Extended(s, tip, ExtendedCount(HighestUsed(s.index), s.count, s.gap).value)
    case Returned => s.(wallet := s.wallet + Lookahead(s), incremental := None, rescanned := {})
    case Failed(_) => s
  }

  // ---- The subscriber object ---------------------------------------------------------------------

  class KyotoSubscriber {
    var state: Subscriber

    /** `new` for a recovery scan. */
    constructor (index: Index, gap: nat, swap: set<Script>)
      ensures state == Subscriber(WalletScripts(index, gap), swap, [], index, gap, gap, None, {})
    {
      state := Subscriber(WalletScripts(index, gap), swap, [], index, gap, gap, None, {});
    }

    method OnFilter(b: Block)
      modifies this
      ensures state == AfterFilter(old(state), b)
    {
      var scripts := ScriptsFor(state, b.height);
      var matches := exists x | x in scripts :: x in b.filter;
      if matches && b !in state.queued {
        state := state.(queued := state.queued + [b]);
      }
    }

    method OnEvent(e: ChainEvent)
      modifies this
      ensures state == AfterEvent(old(state), e)
    {
      if state.incremental.Some? {
        var scan := state.incremental.value;
        match e {
          case Connected(b) => scan := scan.(changed := scan.changed || b.height <= scan.covered);
          case Reorganized(_) => scan := scan.(changed := true);
          case ForkAdded =>
        }
        state := state.(incremental := Some(scan));
      }
    }

    /** The end of a pass: fetch the queued blocks one by one, then rescan, extend or return. */
    method OnSynced(unobserved: set<nat>, tip: nat, depth: nat) returns (o: Outcome)
      modifies this
      ensures var s := Fetched(old(state));
              var missing := Unfound(unobserved, old(state).queued);
              o == Decide(s, missing, tip, depth) && state == Decided(s, missing, tip, depth)
    {
      var queued := state.queued;
      state := state.(queued := []);
      var index, missing := state.index, unobserved;
      var i := 0;
      assert queued[..0] == [];
      while i < |queued|
        invariant 0 <= i <= |queued|
        invariant index == GrowAll(old(state).index, queued[..i])
        invariant missing == Unfound(unobserved, queued[..i])
        invariant state == old(state).(queued := [])
      {
        assert queued[..i + 1][..i] == queued[..i];
        index := Grow(index, queued[i]);
        missing := missing - queued[i].txids;
        i := i + 1;
      }
      assert queued[..i] == queued;
      state := state.(index := index);
      if !(missing <= state.rescanned) {
        o := RescanFrom(if tip < depth then 0 else tip - depth);
        state := state.(rescanned := state.rescanned + missing, incremental := None);
        return;
      }
      var used := HighestUsed(index);
      if used.Some? {
        var required := used.value + 1 + state.gap;
        if required > MAX_SCRIPT_INDEX {
          return Failed(InvalidScriptIndex);
        }
        if required > state.count {
          var newScripts := WalletScripts(index, required) - state.wallet;
          state := state.(count := required, wallet := state.wallet + newScripts,
                          incremental := Some(Incremental(tip, false, newScripts)));
          return RescanAll;
        }
      }
      state := state.(wallet := state.wallet + WalletScripts(index, index.lookahead), incremental := None, rescanned := {});
      o := Returned;
    }
  }

  // ---- The node around it ---------------------------------------------------------------------------

  /** The canonical chain, the heights whose filters are yet to be emitted, and the blocks fetched so far. */
  datatype World = World(sub: Subscriber, chain: seq<Block>, pending: set<nat>, fetched: set<Block>)

  datatype Action =
    | Emit(block: Block)
    | Change(event: ChainEvent)
    | Replay(from: nat)
    | Sync(unobserved: set<nat>, depth: nat)

  /** Blocks are accepted in place: each at its own height, from a height the chain has reached. */
  ghost predicate InPlace(chain: seq<Block>, blocks: seq<Block>) {
    && blocks != [] && blocks[0].height <= |chain|
    && forall i | 0 <= i < |blocks| :: blocks[i].height == blocks[0].height + i
  }

  function Accepted(e: ChainEvent): seq<Block> {
    match e
    case Connected(b) => [b]
    case Reorganized(accepted) => accepted
    case ForkAdded => []
  }

  function Heights(n: nat, from: nat): (r: set<nat>)
    ensures forall h: nat :: h in r <==> from <= h < n
    decreases n
  {
    if n <= from then {} else Heights(n - 1, from) + {n - 1 as nat}
  }

  /** `tip_cycle_rescan_height`: the caller of a later update has the filters emitted again from here. */
  function TipCycleRescanHeight(tip: nat): nat {
    if tip == 0 then 0 else tip - 1
  }

  ghost function Next(w: World, a: Action): World {
    match a
    case Emit(b) =>
      w.(sub := AfterFilter(w.sub, b),
         pending := if b.height < |w.chain| && w.chain[b.height] == b then w.pending - {b.height} else w.pending)
    case Change(e) =>
      var blocks := Accepted(e);
      if !InPlace(w.chain, blocks) then w
      else
        var first := blocks[0].height;
        w.(sub := AfterEvent(w.sub, e), chain := w.chain[..first] + blocks,
           pending := (set h | h in w.pending && h < first) + Heights(first + |blocks|, first))
    case Replay(from) =>
      w.(pending := w.pending + Heights(|w.chain|, from))
    case Sync(unobserved, depth) =>
      if w.pending != {} || w.chain == [] then w
      else
        var s := Fetched(w.sub);
        var missing := Unfound(unobserved, w.sub.queued);
        var tip := |w.chain| - 1;
        var next := Decided(s, missing, tip, depth);
        var o := Decide(s, missing, tip, depth);
        w.(sub := next, fetched := w.fetched + (set b | b in w.sub.queued),
           pending := match o
             case RescanFrom(h) => Heights(|w.chain|, h)
             case RescanAll => Heights(|w.chain|, 0)
             case Returned => {}
             case Failed(_) => {})
  }

  ghost function Run(w: World, actions: seq<Action>): World
    decreases |actions|
  {
    if actions == [] then w else Next(Run(w, actions[..|actions| - 1]), actions[|actions| - 1])
  }

  /** The decision a synchronization takes here. */
  ghost function Outcomes(w: World, unobserved: set<nat>, depth: nat): Outcome
    requires w.chain != []
  {
    Decide(Fetched(w.sub), Unfound(unobserved, w.sub.queued), |w.chain| - 1, depth)
  }

  ghost predicate Returns(w: World, a: Action) {
    a.Sync? && w.pending == {} && w.chain != [] && Outcomes(w, a.unobserved, a.depth).Returned?
  }

  // ---- The invariant ------------------------------------------------------------------------------

  /**
   What a run starts from: blocks that were canonical already, whose filters need not
   be emitted again, and the scripts the subscriber knew then.
   */
  datatype Base = Base(chain: seq<Block>, known: set<Script>)

  const NOTHING: Base := Base([], {})

  /** The block at this height is canonical since the start of the run. */
  ghost predicate Old(base: Base, chain: seq<Block>, h: nat) {
    h < |base.chain| && h < |chain| && chain[..h + 1] == base.chain[..h + 1]
  }

  /** The scripts for which the block at this height is tested during the run. */
  ghost function Due(base: Base, w: World, h: nat): set<Script> {
    if Old(base, w.chain, h) then AllScripts(w.sub) - base.known else AllScripts(w.sub)
  }

  /** A block that matches one of these scripts is queued or fetched. */
  ghost predicate Caught(w: World, b: Block, scripts: set<Script>) {
    Matches(b, scripts) ==> b in w.sub.queued || b in w.fetched
  }

  /** Each canonical block is still to be emitted, or caught if it matches a script it is tested for. */
  ghost predicate Covered(base: Base, w: World) {
    forall h: nat | h < |w.chain| :: h in w.pending || Caught(w, w.chain[h], Due(base, w, h))
  }

  /** While a replay sees no change, every covered block is caught if it matches an old script. */
  ghost predicate Replayable(base: Base, w: World) {
    w.sub.incremental.Some? && !w.sub.incremental.value.changed ==>
      && w.sub.incremental.value.covered < |w.chain|
      && forall h: nat | h <= w.sub.incremental.value.covered ::
           Caught(w, w.chain[h], Due(base, w, h) - w.sub.incremental.value.newScripts)
  }

  ghost predicate Placed(chain: seq<Block>) {
    forall h: nat | h < |chain| :: chain[h].height == h
  }

  ghost predicate Inv(base: Base, w: World) {
    && Placed(w.chain)
    && (forall h | h in w.pending :: h < |w.chain|)
    && Covered(base, w)
    && Replayable(base, w)
    && (forall k: Keychain, i: nat | i < w.sub.count :: OfWallet(k, i) in w.sub.wallet)
  }

  /** A recovery scan about to begin: every canonical filter is still to be emitted. */
  ghost predicate Starts(w: World, index: Index, gap: nat, swap: set<Script>) {
    && w.sub == Subscriber(WalletScripts(index, gap), swap, [], index, gap, gap, None, {})
    && Placed(w.chain)
    && w.pending == Heights(|w.chain|, 0) && w.fetched == {}
  }

  lemma StartsCovered(w: World, index: Index, gap: nat, swap: set<Script>)
    requires Starts(w, index, gap, swap)
    ensures Inv(NOTHING, w)
  {
  }

  lemma EmitStep(base: Base, w: World, b: Block)
    requires Inv(base, w)
    ensures Inv(base, Next(w, Emit(b)))
  {
    var w' := Next(w, Emit(b));
    var scripts := ScriptsFor(w.sub, b.height);
    assert Caught(w', b, scripts);
    forall h: nat | h < |w.chain| ensures h in w'.pending || Caught(w', w.chain[h], Due(base, w', h)) {
      if h in w.pending && h !in w'.pending {
        assert b == w.chain[h];
        if w.sub.incremental.Some? && h <= w.sub.incremental.value.covered && !w.sub.incremental.value.changed {
          assert Caught(w, b, Due(base, w, h) - w.sub.incremental.value.newScripts);
        }
      } else if h !in w.pending {
        assert Caught(w, w.chain[h], Due(base, w, h));
      }
    }
    assert Replayable(base, w') by {
      if w.sub.incremental.Some? && !w.sub.incremental.value.changed {
        forall h: nat | h <= w.sub.incremental.value.covered
          ensures Caught(w', w.chain[h], Due(base, w', h) - w.sub.incremental.value.newScripts)
        {
          assert Caught(w, w.chain[h], Due(base, w, h) - w.sub.incremental.value.newScripts);
        }
      }
    }
  }

  /** Below the first accepted block nothing changes. */
  lemma BelowChange(base: Base, w: World, e: ChainEvent, h: nat)
    requires InPlace(w.chain, Accepted(e)) && h < Accepted(e)[0].height
    ensures var w' := Next(w, Change(e)); h < |w'.chain| && w'.chain[h] == w.chain[h] && Due(base, w', h) == Due(base, w, h)
  {
    var w' := Next(w, Change(e));
    assert w'.chain[..h + 1] == w.chain[..h + 1];
  }

  lemma ChangeStep(base: Base, w: World, e: ChainEvent)
    requires Inv(base, w)
    ensures Inv(base, Next(w, Change(e)))
  {
    var w' := Next(w, Change(e));
    var blocks := Accepted(e);
    if InPlace(w.chain, blocks) {
      var first := blocks[0].height;
      forall h: nat | h < |w'.chain| ensures w'.chain[h].height == h {
        if h >= first { assert w'.chain[h] == blocks[h - first]; }
      }
      forall h: nat | h < |w'.chain| ensures h in w'.pending || Caught(w', w'.chain[h], Due(base, w', h)) {
        if h < first { BelowChange(base, w, e, h); }
      }
      assert Replayable(base, w') by {
        if w'.sub.incremental.Some? && !w'.sub.incremental.value.changed {
          forall h: nat | h <= w.sub.incremental.value.covered
            ensures Caught(w', w'.chain[h], Due(base, w', h) - w.sub.incremental.value.newScripts)
          {
            BelowChange(base, w, e, h);
          }
        }
      }
    }
  }

  lemma ReplayStep(base: Base, w: World, from: nat)
    requires Inv(base, w)
    ensures Inv(base, Next(w, Replay(from)))
  {
    var w' := Next(w, Replay(from));
    forall h: nat | h < |w.chain| ensures h in w'.pending || Caught(w', w.chain[h], Due(base, w', h)) {
      assert h in w.pending || Caught(w, w.chain[h], Due(base, w, h));
    }
    if w.sub.incremental.Some? && !w.sub.incremental.value.changed {
      forall h: nat | h <= w.sub.incremental.value.covered
        ensures Caught(w', w.chain[h], Due(base, w', h) - w.sub.incremental.value.newScripts)
      {
        assert Caught(w, w.chain[h], Due(base, w, h) - w.sub.incremental.value.newScripts);
      }
    }
  }

  /** At the end of a pass every canonical block that matches a script it is tested for is fetched. */
  lemma PassCloses(base: Base, w: World, unobserved: set<nat>, depth: nat, h: nat)
    requires Inv(base, w) && w.pending == {} && h < |w.chain| && Matches(w.chain[h], Due(base, w, h))
    ensures w.chain[h] in Next(w, Sync(unobserved, depth)).fetched
  {
    assert Caught(w, w.chain[h], Due(base, w, h));
  }

  lemma SyncStep(base: Base, w: World, unobserved: set<nat>, depth: nat)
    requires Inv(base, w) && !Returns(w, Sync(unobserved, depth))
    ensures Inv(base, Next(w, Sync(unobserved, depth)))
  {
    var w' := Next(w, Sync(unobserved, depth));
    if w.pending == {} && w.chain != [] {
      forall h: nat | h < |w.chain| ensures Caught(w', w.chain[h], Due(base, w, h)) {
        if Matches(w.chain[h], Due(base, w, h)) { PassCloses(base, w, unobserved, depth, h); }
      }
      if Outcomes(w, unobserved, depth).RescanAll? {
        ExtensionReplays(base, w, unobserved, depth);
      } else {
        forall h: nat | h < |w.chain| ensures Caught(w', w.chain[h], Due(base, w', h)) {
          assert Due(base, w', h) == Due(base, w, h);
        }
      }
    }
  }

  /** An extension leaves only the new scripts to be tested at covered heights. */
  lemma ExtensionReplays(base: Base, w: World, unobserved: set<nat>, depth: nat)
    requires Inv(base, w) && w.pending == {} && w.chain != [] && Outcomes(w, unobserved, depth).RescanAll?
    requires forall h: nat | h < |w.chain| :: Caught(Next(w, Sync(unobserved, depth)), w.chain[h], Due(base, w, h))
    ensures Inv(base, Next(w, Sync(unobserved, depth)))
  {
    var w' := Next(w, Sync(unobserved, depth));
    var s := Fetched(w.sub);
    var required := ExtendedCount(HighestUsed(s.index), s.count, s.gap).value;
    assert w'.sub == Extended(s, |w.chain| - 1, required);
    var newScripts := w'.sub.incremental.value.newScripts;
    forall k: Keychain, i: nat | i < required ensures OfWallet(k, i) in w'.sub.wallet {
      assert OfWallet(k, i) in WalletScripts(s.index, required);
    }
    forall h: nat | h < |w.chain| ensures Caught(w', w.chain[h], Due(base, w', h) - newScripts) {
      assert Due(base, w', h) - newScripts <= Due(base, w, h);
    }
  }

  lemma StepKeeps(base: Base, w: World, a: Action)
    requires Inv(base, w) && !Returns(w, a)
    ensures Inv(base, Next(w, a))
  {
    hide Inv; hide Returns;
    match a
    case Emit(b) => EmitStep(base, w, b);
    case Change(e) => ChangeStep(base, w, e);
    case Replay(from) => ReplayStep(base, w, from);
    case Sync(unobserved, depth) => SyncStep(base, w, unobserved, depth);
  }

  /** No action of the run lets the update return. */
  ghost predicate StillRunning(w: World, actions: seq<Action>)
    decreases |actions|
  {
    actions == [] || (StillRunning(w, actions[..|actions| - 1]) && !Returns(Run(w, actions[..|actions| - 1]), actions[|actions| - 1]))
  }

  lemma {:induction false} RunKeeps(base: Base, w: World, actions: seq<Action>)
    requires Inv(base, w) && StillRunning(w, actions)
    ensures Inv(base, Run(w, actions))
    decreases |actions|
  {
    hide Inv; hide Next; hide Returns;
    if actions != [] {
      RunKeeps(base, w, actions[..|actions| - 1]);
      StepKeeps(base, Run(w, actions[..|actions| - 1]), actions[|actions| - 1]);
    }
  }

  /** A script index within the gap of the highest used one. */
  predicate WithinGap(ix: Index, gap: nat, i: nat) {
    match HighestUsed(ix)
    case None => i < gap
    case Some(u) => i <= u + gap
  }

  /** Every canonical block whose filter matches a script within the gap has been fetched. */
  ghost predicate GapClosed(w: World) {
    forall h: nat, k: Keychain, i: nat | h < |w.chain| && WithinGap(w.sub.index, w.sub.gap, i) && OfWallet(k, i) in w.chain[h].filter ::
      w.chain[h] in w.fetched
  }

  /** Every canonical block whose filter matches one of the subscriber's scripts has been fetched. */
  ghost predicate AllCaught(w: World) {
    forall h: nat | h < |w.chain| && Matches(w.chain[h], AllScripts(w.sub)) :: w.chain[h] in w.fetched
  }

  /** At a return a script within the gap is among those the pass was made for. */
  lemma ReturnCovers(w: World, a: Action, k: Keychain, i: nat)
    requires Returns(w, a) && w.sub.gap <= w.sub.count && WithinGap(Next(w, a).sub.index, Next(w, a).sub.gap, i)
    requires forall k: Keychain, i: nat | i < w.sub.count :: OfWallet(k, i) in w.sub.wallet
    ensures i < w.sub.count && OfWallet(k, i) in AllScripts(w.sub)
  {
  }

  lemma ReturnClosesGap(w: World, a: Action)
    requires Inv(NOTHING, w) && Returns(w, a) && w.sub.gap <= w.sub.count
    ensures GapClosed(Next(w, a))
  {
    var w' := Next(w, a);
    forall h: nat, k: Keychain, i: nat | h < |w.chain| && WithinGap(w'.sub.index, w'.sub.gap, i) && OfWallet(k, i) in w.chain[h].filter
      ensures w.chain[h] in w'.fetched
    {
      ReturnCovers(w, a, k, i);
      assert OfWallet(k, i) in Due(NOTHING, w, h);
      PassCloses(NOTHING, w, a.unobserved, a.depth, h);
    }
  }

  lemma {:induction false} CountKeepsGap(w: World, actions: seq<Action>)
    requires w.sub.gap <= w.sub.count
    ensures Run(w, actions).sub.gap == w.sub.gap && w.sub.count <= Run(w, actions).sub.count
    decreases |actions|
  {
    if actions != [] { CountKeepsGap(w, actions[..|actions| - 1]); }
  }

  /**
   When `update` returns from a recovery scan, after any filters, reorganizations,
   rescans and extensions, every canonical block whose filter matches a script
   within the gap limit of the highest used index has been fetched.
   */
  lemma ScanReachesFixpoint(w: World, index: Index, gap: nat, swap: set<Script>, actions: seq<Action>, last: Action)
    requires Starts(w, index, gap, swap) && StillRunning(w, actions) && Returns(Run(w, actions), last)
    ensures GapClosed(Next(Run(w, actions), last))
  {
    StartsCovered(w, index, gap, swap);
    RunKeeps(NOTHING, w, actions);
    CountKeepsGap(w, actions);
    hide Inv; hide Next; hide Returns;
    ReturnClosesGap(Run(w, actions), last);
  }

  // ---- Termination ---------------------------------------------------------------------------------

  /** What is left to do: script indices to extend to and approved transactions to rescan for. */
  ghost function Remaining(w: World, approved: set<nat>): nat {
    (if w.sub.count < MAX_SCRIPT_INDEX then MAX_SCRIPT_INDEX - w.sub.count else 0) + |approved - w.sub.rescanned|
  }

  /** A completed pass that begins another one. */
  ghost predicate Repeats(w: World, a: Action) {
    a.Sync? && w.pending == {} && w.chain != [] &&
    var o := Outcomes(w, a.unobserved, a.depth); o.RescanFrom? || o.RescanAll?
  }

  /** Every completed pass that does not end the update brings the bound down. */
  lemma PassShrinks(w: World, approved: set<nat>, a: Action)
    requires Repeats(w, a) && a.unobserved <= approved
    ensures Remaining(Next(w, a), approved) < Remaining(w, approved)
  {
    var w' := Next(w, a);
    var missing := Unfound(a.unobserved, w.sub.queued);
    UnfoundShrinks(a.unobserved, w.sub.queued);
    if Outcomes(w, a.unobserved, a.depth).RescanFrom? {
      var t :| t in missing && t !in w.sub.rescanned;
      assert approved - w'.sub.rescanned <= (approved - w.sub.rescanned) - {t};
      NoLarger(approved - w'.sub.rescanned, (approved - w.sub.rescanned) - {t});
    }
  }

  lemma {:induction false} UnfoundShrinks(txids: set<nat>, q: seq<Block>)
    ensures Unfound(txids, q) <= txids
    decreases |q|
  {
    if q != [] { UnfoundShrinks(txids, q[..|q| - 1]); }
  }

  /** The number of passes of a run that began another one. */
  ghost function Repetitions(w: World, actions: seq<Action>): nat
    decreases |actions|
  {
    if actions == [] then 0
    else
      var before := actions[..|actions| - 1];
      Repetitions(w, before) + if Repeats(Run(w, before), actions[|actions| - 1]) then 1 else 0
  }

  /** Over a whole update the passes repeated are no more than the indices and approved transactions left. */
  lemma {:induction false} PassesAreBounded(w: World, approved: set<nat>, actions: seq<Action>)
    requires StillRunning(w, actions)
    requires forall i | 0 <= i < |actions| && actions[i].Sync? :: actions[i].unobserved <= approved
    ensures Repetitions(w, actions) + Remaining(Run(w, actions), approved) <= Remaining(w, approved)
    decreases |actions|
  {
    if actions != [] {
      var before, last := actions[..|actions| - 1], actions[|actions| - 1];
      PassesAreBounded(w, approved, before);
      if Repeats(Run(w, before), last) { PassShrinks(Run(w, before), approved, last); }
    }
  }
}
