/**
 HTLC watches: a watch records where its contract was funded and spent on the
 canonical chain, and a reconciliation updates it from the blocks that matched.
 */
module Watch {
  import opened RecordStore

  datatype Output = Output(value: nat, script: nat)

  datatype OutPoint = OutPoint(txid: nat, vout: nat)

  /** What an input's witness proves about the contract it spends. */
  datatype Witness = RedeemWith(preimage: nat) | RefundAfterLock | Neither

  datatype Input = Input(previous: OutPoint, unlock: Witness)

  datatype Tx = Tx(txid: nat, inputs: seq<Input>, outputs: seq<Output>)

  /** A block stands for its own hash. */
  datatype Block = Block(header: nat, txs: seq<Tx>)

  /** SHA-256 as an injective constructor. */
  datatype Hash = Hash(preimage: nat)

  datatype Terms = Terms(script: nat, hashlock: Hash, value: nat, minimum: nat)

  datatype Branch = Redeemed | Refunded

  datatype Observation = Observation(
    tx: Tx, height: nat, block: Block, confirmations: nat, index: nat, branch: Option<Branch>, preimage: Option<int>)

  datatype Checkpoint = Checkpoint(height: nat, block: Block)

  datatype Watch = Watch(
    terms: Terms, registered: Checkpoint, scanned: Checkpoint,
    funding: Option<Observation>, spend: Option<Observation>, revealed: Option<int>)

  datatype Error =
    | InvalidCheckpoint | InvalidBlockEvidence | InvalidEvidence | AmbiguousEvidence | InvalidSpend
    | Conflict | Corrupt | Capacity

  datatype Matched = Matched(height: nat, block: Block)

  /** The tip, the sparse local chain and the blocks whose filters matched. */
  datatype Update = Update(tip: Checkpoint, checkpoints: map<nat, Block>, matched: seq<Matched>)

  const MAX_WATCHES: nat := 256

  // ---- What a transaction does to the contract -------------------------------------------

  predicate PaysAt(terms: Terms, tx: Tx, i: nat) {
    i < |tx.outputs| && tx.outputs[i] == Output(terms.value, terms.script)
  }

  predicate Pays(terms: Terms, tx: Tx) {
    exists i | 0 <= i < |tx.outputs| :: PaysAt(terms, tx, i)
  }

  predicate PaysOnce(terms: Terms, tx: Tx, i: nat) {
    PaysAt(terms, tx, i) && forall j | 0 <= j < |tx.outputs| && PaysAt(terms, tx, j) :: j == i
  }

  /** `verify_htlc_funding`: the one output that pays the contract. */
  function VerifyFunding(terms: Terms, tx: Tx): (r: Result<nat, Error>)
    ensures r.Ok? ==> PaysOnce(terms, tx, r.value)
    ensures r.Err? ==> forall i :: !PaysOnce(terms, tx, i)
  {
    if !Pays(terms, tx) then Err(InvalidEvidence)
    else if exists i | 0 <= i < |tx.outputs| :: PaysOnce(terms, tx, i) then
      var i :| 0 <= i < |tx.outputs| && PaysOnce(terms, tx, i);
      Ok(i)
    else Err(AmbiguousEvidence)
  }

  predicate SpendsAt(o: OutPoint, tx: Tx, i: nat) {
    i < |tx.inputs| && tx.inputs[i].previous == o
  }

  predicate Spends(o: OutPoint, tx: Tx) {
    exists i | 0 <= i < |tx.inputs| :: SpendsAt(o, tx, i)
  }

  predicate SpendsOnce(o: OutPoint, tx: Tx, i: nat) {
    SpendsAt(o, tx, i) && forall j | 0 <= j < |tx.inputs| && SpendsAt(o, tx, j) :: j == i
  }

  datatype Proof = Proof(branch: Branch, preimage: Option<int>)

  /** What the spending input proves, by the redeem branch or by the refund branch. */
  function Proves(terms: Terms, w: Witness): Option<Proof> {
    match w
    case RedeemWith(p) => if Hash(p) == terms.hashlock then Some(Proof(Redeemed, Some(p))) else None
    case RefundAfterLock => Some(Proof(Refunded, None))
    case Neither => None
  }

  /** `verify_observed_bitcoin_htlc_spend`, tried for one branch and then the other. */
  function VerifySpend(terms: Terms, o: OutPoint, tx: Tx): (r: Result<Proof, Error>)
    ensures r.Ok? ==> exists i | 0 <= i < |tx.inputs| ::
              SpendsOnce(o, tx, i) && Proves(terms, tx.inputs[i].unlock) == Some(r.value)
    ensures r.Ok? && r.value.preimage.Some? ==> r.value.preimage.value >= 0 && Hash(r.value.preimage.value) == terms.hashlock
  {
    if exists i | 0 <= i < |tx.inputs| :: SpendsOnce(o, tx, i) then
      var i :| 0 <= i < |tx.inputs| && SpendsOnce(o, tx, i);
      match Proves(terms, tx.inputs[i].unlock)
      case Some(p) => Ok(p)
      case None => Err(InvalidSpend)
    else Err(InvalidSpend)
  }

  // ---- Candidates --------------------------------------------------------------------------

  /** What the two candidate scans look for, and from which height. */
  datatype Query = FundingOf(terms: Terms, from: nat) | SpendOf(terms: Terms, outpoint: OutPoint, from: nat)

  predicate Touches(q: Query, tx: Tx) {
    match q
    case FundingOf(terms, _) => Pays(terms, tx)
    case SpendOf(_, outpoint, _) => Spends(outpoint, tx)
  }

  /** The height must not lie above the tip. */
  function Depth(tip: nat, height: nat): Result<nat, Error> {
    if height <= tip then Ok(tip - height + 1) else Err(InvalidEvidence)
  }

  function Verified(q: Query, tx: Tx, m: Matched, confirmations: nat): Result<Observation, Error> {
    match q
    case FundingOf(terms, _) =>
      (match VerifyFunding(terms, tx)
       case Ok(i) => Ok(Observation(tx, m.height, m.block, confirmations, i, None, None))
       case Err(e) => Err(e))
    case SpendOf(terms, outpoint, _) =>
      (match VerifySpend(terms, outpoint, tx)
       case Ok(p) => Ok(Observation(tx, m.height, m.block, confirmations, 0, Some(p.branch), p.preimage))
       case Err(e) => Err(e))
  }

  /** The observation one transaction of a matched block gives, if it touches the contract. */
  function Observe(q: Query, m: Matched, tx: Tx, tip: nat): Result<seq<Observation>, Error> {
    if !Touches(q, tx) then Ok([])
    else
      match Depth(tip, m.height)
      case Err(e) => Err(e)
      case Ok(c) =>
        match Verified(q, tx, m, c)
        case Ok(o) => Ok([o])
        case Err(e) => Err(e)
  }

  function Append(a: Result<seq<Observation>, Error>, b: Result<seq<Observation>, Error>): (r: Result<seq<Observation>, Error>)
    ensures b == Ok([]) ==> r == a
    ensures a == Ok([]) ==> r == b
  {
    if a.Err? then a
    else if b.Err? then b
    else
      assert a.value + [] == a.value && [] + b.value == b.value;
      Ok(a.value + b.value)
  }

  function InBlock(q: Query, m: Matched, k: nat, tip: nat): Result<seq<Observation>, Error>
    requires k <= |m.block.txs|
    decreases k
  {
    if k == 0 then Ok([]) else Append(InBlock(q, m, k - 1, tip), Observe(q, m, m.block.txs[k - 1], tip))
  }

  /** Every observation the first `n` matched blocks give, in order. */
  function InBlocks(q: Query, blocks: seq<Matched>, n: nat, tip: nat): Result<seq<Observation>, Error>
    requires n <= |blocks|
    decreases n
  {
    if n == 0 then Ok([])
    else
      var m := blocks[n - 1];
      Append(InBlocks(q, blocks, n - 1, tip), if m.height < q.from then Ok([]) else InBlock(q, m, |m.block.txs|, tip))
  }

  /** An error found on the way is the error of the whole scan. */
  lemma {:induction false} ErrorStays(q: Query, blocks: seq<Matched>, n: nat, k: nat, tip: nat)
    requires n <= k <= |blocks| && InBlocks(q, blocks, n, tip).Err?
    ensures InBlocks(q, blocks, k, tip) == InBlocks(q, blocks, n, tip)
    decreases k
  {
    if n < k { ErrorStays(q, blocks, n, k - 1, tip); }
  }

  lemma {:induction false} BlockErrorStays(q: Query, m: Matched, n: nat, k: nat, tip: nat)
    requires n <= k <= |m.block.txs| && InBlock(q, m, n, tip).Err?
    ensures InBlock(q, m, k, tip) == InBlock(q, m, n, tip)
    decreases k
  {
    if n < k { BlockErrorStays(q, m, n, k - 1, tip); }
  }

  /** The nested loops of `funding_candidates` and `spend_candidates`. */
  method Candidates(q: Query, blocks: seq<Matched>, tip: nat) returns (r: Result<seq<Observation>, Error>)
    ensures r == InBlocks(q, blocks, |blocks|, tip)
  {
    hide Touches; hide Verified; hide Depth;
    var found: seq<Observation> := [];
    var n := 0;
    while n < |blocks|
      invariant 0 <= n <= |blocks|
      invariant InBlocks(q, blocks, n, tip) == Ok(found)
    {
      var m := blocks[n];
      if m.height >= q.from {
        ghost var before := found;
        var k := 0;
        assert before + [] == before;
        while k < |m.block.txs|
          invariant 0 <= k <= |m.block.txs|
          invariant InBlock(q, m, k, tip).Ok? && found == before + InBlock(q, m, k, tip).value
        {
          match Observe(q, m, m.block.txs[k], tip)
          case Err(e) =>
            BlockErrorStays(q, m, k + 1, |m.block.txs|, tip);
            ErrorStays(q, blocks, n + 1, |blocks|, tip);
            return Err(e);
          case Ok(os) =>
            assert before + InBlock(q, m, k, tip).value + os == before + (InBlock(q, m, k, tip).value + os);
            found := found + os;
          k := k + 1;
        }
      } else {
        assert found + [] == found;
      }
      n := n + 1;
    }
    r := Ok(found);
  }

  // ---- One reconciliation --------------------------------------------------------------------

  /** The chain carries another block at that height; a missing one proves nothing. */
  predicate Conflicts(u: Update, o: Observation) {
    o.height in u.checkpoints && u.checkpoints[o.height] != o.block
  }

  function WithoutStale(w: Watch, u: Update): Watch {
    if w.funding.Some? && Conflicts(u, w.funding.value) then w.(funding := None, spend := None)
    else if w.spend.Some? && Conflicts(u, w.spend.value) then w.(spend := None)
    else w
  }

  function FundingQuery(w: Watch): Query {
    FundingOf(w.terms, w.registered.height)
  }

  function FundedAt(o: Observation): OutPoint {
    OutPoint(o.tx.txid, o.index)
  }

  function SpendQuery(w: Watch, funding: Observation): Query {
    SpendOf(w.terms, FundedAt(funding), funding.height)
  }

  function AddFunding(w: Watch, found: Result<seq<Observation>, Error>): Result<Watch, Error> {
    if w.funding.Some? then Ok(w)
    else if found.Err? then Err(found.error)
    else if found.value == [] then Ok(w)
    else if |found.value| == 1 then Ok(w.(funding := Some(found.value[0])))
    else Err(Conflict)
  }

  function AddSpend(w: Watch, found: Result<seq<Observation>, Error>): Result<Watch, Error> {
    if w.spend.Some? || w.funding.None? then Ok(w)
    else if found.Err? then Err(found.error)
    else if found.value == [] then Ok(w)
    else if |found.value| == 1 then
      var o := found.value[0];
      if o.preimage.Some? && w.revealed.Some? && w.revealed != o.preimage then Err(Conflict)
      else Ok(w.(spend := Some(o), revealed := if o.preimage.Some? then o.preimage else w.revealed))
    else Err(Conflict)
  }

  function Recount(o: Option<Observation>, tip: nat): Result<Option<Observation>, Error> {
    match o
    case None => Ok(None)
    case Some(x) =>
      match Depth(tip, x.height)
      case Err(e) => Err(e)
      case Ok(c) => Ok(Some(x.(confirmations := c)))
  }

  function RecountBoth(w: Watch, tip: nat): Result<Watch, Error> {
    match Recount(w.funding, tip)
    case Err(e) => Err(e)
    case Ok(f) =>
      match Recount(w.spend, tip)
      case Err(e) => Err(e)
      case Ok(s) => Ok(w.(funding := f, spend := s))
  }

  predicate FundingValid(w: Watch, f: Observation) {
    && f.branch.None? && f.preimage.None?
    && w.registered.height <= f.height
    && Depth(w.scanned.height, f.height) == Ok(f.confirmations)
    && VerifyFunding(w.terms, f.tx) == Ok(f.index)
  }

  predicate SpendValid(w: Watch, f: Observation, s: Observation) {
    && Depth(w.scanned.height, s.height) == Ok(s.confirmations)
    && s.branch.Some?
    && VerifySpend(w.terms, FundedAt(f), s.tx) == Ok(Proof(s.branch.value, s.preimage))
    && (s.preimage.Some? ==> w.revealed == s.preimage)
    && f.height <= s.height
  }

  /** `validate_persisted_watch`. */
  predicate Valid(w: Watch) {
    && w.registered.height <= w.scanned.height
    && (w.spend.Some? ==> w.funding.Some?)
    && (w.revealed.Some? ==> w.revealed.value >= 0 && Hash(w.revealed.value) == w.terms.hashlock)
    && (w.funding.Some? ==> FundingValid(w, w.funding.value))
    && (w.funding.Some? && w.spend.Some? ==> SpendValid(w, w.funding.value, w.spend.value))
  }

  function FoundFunding(w: Watch, u: Update): Result<Watch, Error> {
    var kept := WithoutStale(w, u);
    AddFunding(kept, InBlocks(FundingQuery(kept), u.matched, |u.matched|, u.tip.height))
  }

  function FoundSpend(w: Watch, u: Update): Result<Watch, Error> {
    if w.funding.None? then Ok(w)
    else AddSpend(w, InBlocks(SpendQuery(w, w.funding.value), u.matched, |u.matched|, u.tip.height))
  }

  function Settled(w: Watch, u: Update): Result<Watch, Error> {
    match RecountBoth(w, u.tip.height)
    case Err(e) => Err(e)
    case Ok(counted) =>
      var next := counted.(scanned := u.tip);
      if Valid(next) then Ok(next) else Err(Corrupt)
  }

  /** The watch after one update, as a value. */
  function Reconcile(w: Watch, u: Update): Result<Watch, Error> {
    match FoundFunding(w, u)
    case Err(e) => Err(e)
    case Ok(funded) =>
      match FoundSpend(funded, u)
      case Err(e) => Err(e)
      case Ok(spent) => Settled(spent, u)
  }

  predicate Checks(u: Update) {
    u.tip.height in u.checkpoints && u.checkpoints[u.tip.height] == u.tip.block
  }

  predicate MatchedOnChain(u: Update) {
    forall i | 0 <= i < |u.matched| :: u.matched[i].height in u.checkpoints && u.checkpoints[u.matched[i].height] == u.matched[i].block
  }

  // ---- What the scans find ------------------------------------------------------------------------

  ghost predicate TouchedAt(q: Query, blocks: seq<Matched>, b: nat, k: nat) {
    b < |blocks| && k < |blocks[b].block.txs| && q.from <= blocks[b].height && Touches(q, blocks[b].block.txs[k])
  }

  lemma {:induction false} NoneInBlock(q: Query, m: Matched, k: nat, tip: nat)
    requires k <= |m.block.txs| && forall j | 0 <= j < k :: !Touches(q, m.block.txs[j])
    ensures InBlock(q, m, k, tip) == Ok([])
    decreases k
  {
    if k != 0 { NoneInBlock(q, m, k - 1, tip); }
  }

  lemma {:induction false} NoneInBlocks(q: Query, blocks: seq<Matched>, n: nat, tip: nat)
    requires n <= |blocks| && forall b: nat, k: nat | b < n :: !TouchedAt(q, blocks, b, k)
    ensures InBlocks(q, blocks, n, tip) == Ok([])
    decreases n
  {
    if n != 0 {
      NoneInBlocks(q, blocks, n - 1, tip);
      var m := blocks[n - 1];
      if q.from <= m.height {
        forall j | 0 <= j < |m.block.txs| ensures !Touches(q, m.block.txs[j]) {
          assert !TouchedAt(q, blocks, n - 1, j);
        }
        NoneInBlock(q, m, |m.block.txs|, tip);
      }
    }
  }

  lemma {:induction false} OneInBlock(q: Query, m: Matched, n: nat, k: nat, tip: nat, o: Observation)
    requires k < n <= |m.block.txs|
    requires Observe(q, m, m.block.txs[k], tip) == Ok([o])
    requires forall j | 0 <= j < n && Touches(q, m.block.txs[j]) :: j == k
    ensures InBlock(q, m, n, tip) == Ok([o])
    decreases n
  {
    hide Touches; hide Verified;
    if n - 1 == k {
      NoneInBlock(q, m, k, tip);
    } else {
      OneInBlock(q, m, n - 1, k, tip, o);
      assert Observe(q, m, m.block.txs[n - 1], tip) == Ok([]);
    }
  }

  /** Exactly one touching transaction gives exactly its observation. */
  lemma {:induction false} OneInBlocks(q: Query, blocks: seq<Matched>, n: nat, b: nat, k: nat, tip: nat, o: Observation)
    requires b < n <= |blocks| && TouchedAt(q, blocks, b, k)
    requires Observe(q, blocks[b], blocks[b].block.txs[k], tip) == Ok([o])
    requires forall c: nat, j: nat | c < n && TouchedAt(q, blocks, c, j) :: c == b && j == k
    ensures InBlocks(q, blocks, n, tip) == Ok([o])
    decreases n
  {
    hide Touches; hide Verified;
    var m := blocks[n - 1];
    if n - 1 == b {
      NoneInBlocks(q, blocks, b, tip);
      forall j | 0 <= j < |m.block.txs| && Touches(q, m.block.txs[j]) ensures j == k {
        assert TouchedAt(q, blocks, b, j);
      }
      OneInBlock(q, m, |m.block.txs|, k, tip, o);
    } else {
      OneInBlocks(q, blocks, n - 1, b, k, tip, o);
      if q.from <= m.height {
        forall j | 0 <= j < |m.block.txs| ensures !Touches(q, m.block.txs[j]) {
          assert !TouchedAt(q, blocks, n - 1, j);
        }
        NoneInBlock(q, m, |m.block.txs|, tip);
      }
    }
  }
}
