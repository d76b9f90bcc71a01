/**
 The swap-key allocator: one binding with its claim per (wallet, session, role),
 and one high-water record with its anchor per (wallet, network, account, role),
 written together in one batch that a concurrent allocator can make stale.
 */
module SwapKeys {
  import opened RecordStore

  const MAX_ACCOUNT_INDEX: nat := 100_000
  const MAX_KEY_INDEX: nat := 100_000
  const MAX_ATTEMPTS: nat := 2

  datatype Role = Receiver | Refunder

  /** The namespace that key indices are counted in. */
  datatype Space = Space(wallet: nat, network: nat, account: nat, role: Role)

  /** Who a key is bound to. */
  datatype Owner = Owner(wallet: nat, session: nat, role: Role)

  datatype Reference = Reference(network: nat, account: nat, role: Role, index: nat)

  datatype Request = Request(wallet: nat, session: nat, network: nat, account: nat, role: Role, terms: nat)

  /** Hashes and derived keys are injective constructors. */
  datatype SeedCommitment = SeedCommitment(wallet: nat, seed: nat)

  datatype PublicKey = PublicKey(seed: nat, wallet: nat, session: nat, terms: nat, reference: Reference)

  datatype Allocation = Allocation(
    wallet: nat, session: nat, reference: Reference, publicKey: PublicKey, seed: SeedCommitment, terms: nat, at: nat)

  datatype Key = AnchorKey(space: Space) | HighKey(space: Space) | BindingKey(owner: Owner) | ClaimKey(owner: Owner)

  datatype Record =
    | Anchor(space: Space, seed: SeedCommitment)
    | HighWater(space: Space, seed: SeedCommitment, next: nat, last: nat)
    | Binding(allocation: Allocation)
    | Claim(owner: Owner, commitment: Allocation)

  datatype Error =
    InvalidRequest | BindingConflict | NotFound | Corrupt | Exhausted | ClockRollback | Concurrent | MissingSeed

  type Rows = Table<Key, Record>

  /** The recovery seeds, by wallet; they never change. */
  type Seeds = map<nat, nat>

  function SpaceOf(r: Request): Space {
    Space(r.wallet, r.network, r.account, r.role)
  }

  function OwnerOf(r: Request): Owner {
    Owner(r.wallet, r.session, r.role)
  }

  function RequestOf(a: Allocation): Request {
    Request(a.wallet, a.session, a.reference.network, a.reference.account, a.reference.role, a.terms)
  }

  predicate ValidRequest(r: Request) {
    r.wallet != 0 && r.session != 0 && r.terms != 0 && r.account <= MAX_ACCOUNT_INDEX
  }

  predicate ValidAllocation(a: Allocation) {
    && a.at != 0 && a.wallet != 0 && a.session != 0 && a.terms != 0
    && a.publicKey.reference == a.reference
    && a.reference.account <= MAX_ACCOUNT_INDEX && a.reference.index <= MAX_KEY_INDEX
  }

  // ---- Loading ---------------------------------------------------------------------------------

  predicate HighWaterValid(space: Space, row: Stored<Record>) {
    && row.value.HighWater? && row.value.space == space
    && 0 < row.value.next <= MAX_KEY_INDEX + 1 && row.revision == row.value.next && row.value.last != 0
  }

  predicate AnchorValid(space: Space, row: Stored<Record>) {
    row.value.Anchor? && row.value.space == space && row.revision == 1
  }

  /** `load_high_water`: the two records of a namespace are both there and agree, or neither is. */
  function LoadHigh(t: Rows, space: Space): (r: Result<Option<Stored<Record>>, Error>)
    ensures r.Err? ==> r.error == Corrupt
  {
    if HighKey(space) !in t && AnchorKey(space) !in t then Ok(None)
    else if HighKey(space) !in t || AnchorKey(space) !in t then Err(Corrupt)
    else
      var high, anchor := t[HighKey(space)], t[AnchorKey(space)];
      if !HighWaterValid(space, high) || !AnchorValid(space, anchor) || anchor.value.seed != high.value.seed then Err(Corrupt)
      else Ok(Some(high))
  }

  /** `validate_allocation_topology`: the time of the namespace's last allocation. */
  function Topology(t: Rows, seeds: Seeds, a: Allocation): (r: Result<nat, Error>)
    ensures r.Err? ==> r.error == Corrupt || r.error == MissingSeed
  {
    match LoadHigh(t, SpaceOf(RequestOf(a)))
    case Err(e) => Err(e)
    case Ok(None) => Err(Corrupt)
    case Ok(Some(high)) =>
      if !high.value.HighWater? then Err(Corrupt)
      else if a.wallet !in seeds then Err(MissingSeed)
      else if a.reference.index >= high.value.next || a.at > high.value.last || a.seed != high.value.seed
              || a.seed != SeedCommitment(a.wallet, seeds[a.wallet])
      then Err(Corrupt)
      else Ok(high.value.last)
  }

  predicate Bound(owner: Owner, binding: Stored<Record>, claim: Stored<Record>) {
    && binding.revision == 1 && binding.value.Binding?
    && ValidAllocation(binding.value.allocation) && OwnerOf(RequestOf(binding.value.allocation)) == owner
    && claim == Stored(1, Claim(owner, binding.value.allocation))
  }

  /** `load_bitcoin_swap_key_allocation`. */
  function Load(t: Rows, seeds: Seeds, owner: Owner): Result<Option<Allocation>, Error> {
    if BindingKey(owner) !in t && ClaimKey(owner) !in t then Ok(None)
    else if BindingKey(owner) !in t || ClaimKey(owner) !in t then Err(Corrupt)
    else if !Bound(owner, t[BindingKey(owner)], t[ClaimKey(owner)]) then Err(Corrupt)
    else
      var a := t[BindingKey(owner)].value.allocation;
      match Topology(t, seeds, a)
      case Err(e) => Err(e)
      case Ok(_) => Ok(Some(a))
  }

  /** `derive_allocated_bitcoin_swap_key_from_store` after a load: the key is derived again and must agree. */
  predicate Rederives(seeds: Seeds, a: Allocation) {
    && a.wallet in seeds && a.seed == SeedCommitment(a.wallet, seeds[a.wallet])
    && a.publicKey == PublicKey(seeds[a.wallet], a.wallet, a.session, a.terms, a.reference)
  }

  /** `accept_existing`. */
  function Accept(t: Rows, seeds: Seeds, a: Allocation, r: Request, now: nat): (result: Result<Allocation, Error>)
    ensures result.Err? ==> result.error != Concurrent
    ensures result.Ok? ==> result.value == a && RequestOf(a) == r
  {
    if RequestOf(a) != r then Err(BindingConflict)
    else
      match Topology(t, seeds, a)
      case Err(e) => Err(e)
      case Ok(last) =>
        if now < last then Err(ClockRollback)
        else if !Rederives(seeds, a) then Err(Corrupt)
        else Ok(a)
  }

  // ---- Preparing a batch ------------------------------------------------------------------------

  datatype Prepared = Prepared(request: Request, now: nat, expected: nat, allocation: Allocation)

  /** The saves of a prepared allocation; the first one of a namespace also anchors it. */
  function Saves(p: Prepared): (r: seq<Save<Key, Record>>)
    ensures |r| == if p.expected == 0 then 4 else 3
  {
    var space, owner := SpaceOf(p.request), OwnerOf(p.request);
    var three := [
      Save(HighKey(space), p.expected, HighWater(space, p.allocation.seed, p.expected + 1, p.now)),
      Save(BindingKey(owner), 0, Binding(p.allocation)),
      Save(ClaimKey(owner), 0, Claim(owner, p.allocation))];
    if p.expected == 0 then three + [Save(AnchorKey(space), 0, Anchor(space, p.allocation.seed))] else three
  }

  /** `prepare_allocation_saves`, from the high-water record as it was loaded. */
  function Prepare(seeds: Seeds, r: Request, now: nat, high: Option<Stored<Record>>): (result: Result<Prepared, Error>)
    ensures result.Err? ==> result.error != Concurrent
    ensures result.Ok? ==> result.value.request == r
  {
    if !ValidRequest(r) || now == 0 then Err(InvalidRequest)
    else if high.Some? && !HighWaterValid(SpaceOf(r), high.value) then Err(Corrupt)
    else
      var index := if high.Some? then high.value.value.next else 0;
      if high.Some? && now < high.value.value.last then Err(ClockRollback)
      else if index > MAX_KEY_INDEX then Err(Exhausted)
      else if r.wallet !in seeds then Err(MissingSeed)
      else
        var seed := SeedCommitment(r.wallet, seeds[r.wallet]);
        if high.Some? && high.value.value.seed != seed then Err(Corrupt)
        else
          var reference := Reference(r.network, r.account, r.role, index);
          var key := PublicKey(seeds[r.wallet], r.wallet, r.session, r.terms, reference);
          Ok(Prepared(r, now, if high.Some? then high.value.revision else 0,
                      Allocation(r.wallet, r.session, reference, key, seed, r.terms, now)))
  }

  // ---- The invariant --------------------------------------------------------------------------------

  /** The binding that holds an index of a namespace. */
  predicate Holds(t: Rows, space: Space, index: nat, owner: Owner) {
    && BindingKey(owner) in t && t[BindingKey(owner)].value.Binding?
    && SpaceOf(RequestOf(t[BindingKey(owner)].value.allocation)) == space
    && t[BindingKey(owner)].value.allocation.reference.index == index
  }

  ghost predicate Held(t: Rows, space: Space, index: nat) {
    exists owner :: Holds(t, space, index, owner)
  }

  /** The next index of a namespace. */
  function NextIndex(t: Rows, space: Space): nat {
    if HighKey(space) in t && t[HighKey(space)].value.HighWater? then t[HighKey(space)].value.next else 0
  }

  predicate SpaceInv(t: Rows, seeds: Seeds, space: Space) {
    && (HighKey(space) in t <==> AnchorKey(space) in t)
    && (HighKey(space) in t ==>
          && HighWaterValid(space, t[HighKey(space)]) && AnchorValid(space, t[AnchorKey(space)])
          && space.wallet in seeds
          && t[HighKey(space)].value.seed == SeedCommitment(space.wallet, seeds[space.wallet])
          && t[AnchorKey(space)].value.seed == t[HighKey(space)].value.seed)
  }

  predicate OwnerInv(t: Rows, seeds: Seeds, owner: Owner) {
    && (BindingKey(owner) in t <==> ClaimKey(owner) in t)
    && (BindingKey(owner) in t ==>
          && Bound(owner, t[BindingKey(owner)], t[ClaimKey(owner)])
          && var a := t[BindingKey(owner)].value.allocation;
             var space := SpaceOf(RequestOf(a));
             && Rederives(seeds, a)
             && HighKey(space) in t && t[HighKey(space)].value.HighWater?
             && a.reference.index < t[HighKey(space)].value.next && a.at <= t[HighKey(space)].value.last)
  }

  /** The indices of every namespace are exactly those below its high water, each held by one owner. */
  ghost predicate Dense(t: Rows) {
    && (forall space: Space, i: nat | i < NextIndex(t, space) :: Held(t, space, i))
    && (forall space: Space, i: nat, a: Owner, b: Owner | Holds(t, space, i, a) && Holds(t, space, i, b) :: a == b)
  }

  ghost predicate Inv(t: Rows, seeds: Seeds) {
    && (forall space: Space :: SpaceInv(t, seeds, space))
    && (forall owner: Owner :: OwnerInv(t, seeds, owner))
    && Dense(t)
  }

  // ---- One batch ---------------------------------------------------------------------------------------

  /** What the batch was prepared from is still there. */
  predicate Fresh(t: Rows, p: Prepared) {
    var space, owner := SpaceOf(p.request), OwnerOf(p.request);
    && Revision(t, HighKey(space)) == p.expected && (p.expected == 0 ==> Revision(t, AnchorKey(space)) == 0)
    && Revision(t, BindingKey(owner)) == 0 && Revision(t, ClaimKey(owner)) == 0
  }

  function Applied(t: Rows, p: Prepared): Rows {
    var space, owner := SpaceOf(p.request), OwnerOf(p.request);
    var three := t[HighKey(space) := Stored(p.expected + 1, HighWater(space, p.allocation.seed, p.expected + 1, p.now))]
                  [BindingKey(owner) := Stored(1, Binding(p.allocation))]
                  [ClaimKey(owner) := Stored(1, Claim(owner, p.allocation))];
    if p.expected == 0 then three[AnchorKey(space) := Stored(1, Anchor(space, p.allocation.seed))] else three
  }

  lemma SavesDistinct(p: Prepared)
    ensures DistinctSaves(Saves(p))
  {
  }

  lemma WrittenIsApplied(t: Rows, p: Prepared)
    requires DistinctSaves(Saves(p))
    ensures Written(t, Saves(p)) == Applied(t, p)
  {
    hide Written;
    var saves := Saves(p);
    var after := Written(t, saves);
    assert saves[0].id in after && saves[1].id in after && saves[2].id in after;
    assert p.expected == 0 ==> saves[3].id in after;
    assert after.Keys == Applied(t, p).Keys;
    forall k | k in after ensures after[k] == Applied(t, p)[k] {
      if forall i | 0 <= i < |saves| :: saves[i].id != k {
        assert saves[0].id != k && saves[1].id != k && saves[2].id != k;
        assert p.expected == 0 ==> saves[3].id != k;
      }
    }
  }

  /** A batch is applied whole when what it was prepared from is still there, and otherwise writes nothing. */
  lemma BatchOutcome(t: Rows, p: Prepared)
    ensures ApplyBatch(t, Saves(p), []) == if Fresh(t, p) then Ok(Applied(t, p)) else Err(StaleRevision)
  {
    var saves := Saves(p);
    SavesDistinct(p);
    var none: seq<Delete<Key>> := [];
    if Fresh(t, p) {
      SavesApply(t, saves);
      WrittenIsApplied(t, p);
    } else {
      hide Written;
      assert saves[0].id == HighKey(SpaceOf(p.request));
      assert saves[1].id == BindingKey(OwnerOf(p.request)) && saves[2].id == ClaimKey(OwnerOf(p.request));
      assert p.expected == 0 ==> saves[3].id == AnchorKey(SpaceOf(p.request));
      assert !Current(t, saves, none);
    }
  }

  /** A prepared batch, against a table at or past the one it was prepared from. */
  ghost predicate PreparedOk(t: Rows, seeds: Seeds, p: Prepared) {
    && ValidRequest(p.request) && p.now != 0 && p.expected <= MAX_KEY_INDEX
    && p.request.wallet in seeds
    && p.allocation == Allocation(p.request.wallet, p.request.session, p.allocation.reference, p.allocation.publicKey,
                                  SeedCommitment(p.request.wallet, seeds[p.request.wallet]), p.request.terms, p.now)
    && p.allocation.reference == Reference(p.request.network, p.request.account, p.request.role, p.expected)
    && p.allocation.publicKey ==
         PublicKey(seeds[p.request.wallet], p.request.wallet, p.request.session, p.request.terms, p.allocation.reference)
    && p.expected <= Revision(t, HighKey(SpaceOf(p.request)))
    && (p.expected == Revision(t, HighKey(SpaceOf(p.request))) && HighKey(SpaceOf(p.request)) in t
          && t[HighKey(SpaceOf(p.request))].value.HighWater? ==>
          t[HighKey(SpaceOf(p.request))].value.last <= p.now)
  }

  lemma PrepareIsOk(t: Rows, seeds: Seeds, r: Request, now: nat)
    requires LoadHigh(t, SpaceOf(r)).Ok? && Prepare(seeds, r, now, LoadHigh(t, SpaceOf(r)).value).Ok?
    ensures PreparedOk(t, seeds, Prepare(seeds, r, now, LoadHigh(t, SpaceOf(r)).value).value)
  {
  }

  lemma AppliedSpaces(t: Rows, seeds: Seeds, p: Prepared, space: Space)
    requires Inv(t, seeds) && PreparedOk(t, seeds, p) && Fresh(t, p)
    ensures SpaceInv(Applied(t, p), seeds, space)
  {
    hide Dense; hide OwnerInv;
    assert SpaceInv(t, seeds, space);
    if space == SpaceOf(p.request) {
      assert p.expected == 0 <==> HighKey(space) !in t;
    }
  }

  lemma AppliedOwners(t: Rows, seeds: Seeds, p: Prepared, owner: Owner)
    requires Inv(t, seeds) && PreparedOk(t, seeds, p) && Fresh(t, p)
    ensures OwnerInv(Applied(t, p), seeds, owner)
  {
    hide Dense;
    assert SpaceInv(t, seeds, SpaceOf(p.request));
    assert OwnerInv(t, seeds, owner) && OwnerInv(t, seeds, OwnerOf(p.request));
    if owner != OwnerOf(p.request) && BindingKey(owner) in t {
      var space := SpaceOf(RequestOf(t[BindingKey(owner)].value.allocation));
      assert SpaceInv(t, seeds, space);
    }
  }

  /** Holding an index after the batch: as before, and the new owner holds the index that was next. */
  lemma AppliedHolds(t: Rows, seeds: Seeds, p: Prepared, space: Space, i: nat, owner: Owner)
    requires Inv(t, seeds) && PreparedOk(t, seeds, p) && Fresh(t, p)
    ensures Holds(Applied(t, p), space, i, owner) <==>
              Holds(t, space, i, owner) || (owner == OwnerOf(p.request) && space == SpaceOf(p.request) && i == p.expected)
  {
    hide Dense;
    assert OwnerInv(t, seeds, OwnerOf(p.request));
    assert BindingKey(OwnerOf(p.request)) !in t;
  }

  lemma AppliedNext(t: Rows, seeds: Seeds, p: Prepared, space: Space)
    requires Inv(t, seeds) && PreparedOk(t, seeds, p) && Fresh(t, p)
    ensures NextIndex(Applied(t, p), space) == if space == SpaceOf(p.request) then p.expected + 1 else NextIndex(t, space)
    ensures NextIndex(t, SpaceOf(p.request)) == p.expected
  {
    hide Dense; hide OwnerInv;
    assert SpaceInv(t, seeds, SpaceOf(p.request));
  }

  /** An index that is held lies below the high water. */
  lemma HeldIsBelow(t: Rows, seeds: Seeds, space: Space, i: nat, owner: Owner)
    requires Inv(t, seeds) && Holds(t, space, i, owner)
    ensures i < NextIndex(t, space)
  {
    hide Dense;
    assert OwnerInv(t, seeds, owner);
  }

  lemma AppliedDense(t: Rows, seeds: Seeds, p: Prepared)
    requires Inv(t, seeds) && PreparedOk(t, seeds, p) && Fresh(t, p)
    ensures Dense(Applied(t, p))
  {
    var after := Applied(t, p);
    var mine, me := SpaceOf(p.request), OwnerOf(p.request);
    hide Inv; hide Holds; hide NextIndex; hide Applied; hide PreparedOk; hide Fresh;
    assert Dense(t) by { InvIsDense(t, seeds); }
    forall space: Space, i: nat | i < NextIndex(after, space) ensures Held(after, space, i) {
      AppliedNext(t, seeds, p, space);
      if space == mine && i == p.expected {
        AppliedHolds(t, seeds, p, space, i, me);
      } else {
        assert Held(t, space, i);
        var owner :| Holds(t, space, i, owner);
        AppliedHolds(t, seeds, p, space, i, owner);
      }
    }
    forall space: Space, i: nat, a: Owner, b: Owner | Holds(after, space, i, a) && Holds(after, space, i, b) ensures a == b {
      AppliedHolds(t, seeds, p, space, i, a);
      AppliedHolds(t, seeds, p, space, i, b);
      AppliedNext(t, seeds, p, mine);
      if Holds(t, space, i, a) { HeldIsBelow(t, seeds, space, i, a); }
      if Holds(t, space, i, b) { HeldIsBelow(t, seeds, space, i, b); }
    }
  }

  lemma InvIsDense(t: Rows, seeds: Seeds)
    requires Inv(t, seeds)
    ensures Dense(t)
  {
  }

  lemma AppliedKeeps(t: Rows, seeds: Seeds, p: Prepared)
    requires Inv(t, seeds) && PreparedOk(t, seeds, p) && Fresh(t, p)
    ensures Inv(Applied(t, p), seeds)
  {
    var after := Applied(t, p);
    forall space: Space ensures SpaceInv(after, seeds, space) { AppliedSpaces(t, seeds, p, space); }
    forall owner: Owner ensures OwnerInv(after, seeds, owner) { AppliedOwners(t, seeds, p, owner); }
    AppliedDense(t, seeds, p);
  }

  // ---- Runs of concurrent allocators -----------------------------------------------------------------

  /** Batches prepared by allocators that have not applied them yet. */
  datatype World = World(t: Rows, waiting: map<nat, Prepared>)

  datatype Action = DoPrepare(slot: nat, request: Request, now: nat) | DoApply(slot: nat)

  function Prepares(t: Rows, seeds: Seeds, r: Request, now: nat): Result<Prepared, Error> {
    match LoadHigh(t, SpaceOf(r))
    case Err(e) => Err(e)
    case Ok(high) => Prepare(seeds, r, now, high)
  }

  function Next(w: World, seeds: Seeds, a: Action): World {
    match a
    case DoPrepare(slot, r, now) =>
      (match Prepares(w.t, seeds, r, now)
       case Ok(p) => w.(waiting := w.waiting[slot := p])
       case Err(_) => w)
    case DoApply(slot) =>
      if slot !in w.waiting then w
      else
        match ApplyBatch(w.t, Saves(w.waiting[slot]), [])
        case Ok(t) => World(t, w.waiting - {slot})
        case Err(_) => w.(waiting := w.waiting - {slot})
  }

  function Run(w: World, seeds: Seeds, actions: seq<Action>): World
    decreases |actions|
  {
    if actions == [] then w else Next(Run(w, seeds, actions[..|actions| - 1]), seeds, actions[|actions| - 1])
  }

  ghost predicate WorldInv(w: World, seeds: Seeds) {
    Inv(w.t, seeds) && forall slot | slot in w.waiting :: PreparedOk(w.t, seeds, w.waiting[slot])
  }

  /** A batch that waits while another is applied is now stale in that namespace, and sound elsewhere. */
  lemma StillOk(t: Rows, seeds: Seeds, p: Prepared, other: Prepared)
    requires Fresh(t, p) && PreparedOk(t, seeds, p) && PreparedOk(t, seeds, other)
    ensures PreparedOk(Applied(t, p), seeds, other)
  {
  }

  lemma StepKeeps(w: World, seeds: Seeds, a: Action)
    requires WorldInv(w, seeds)
    ensures WorldInv(Next(w, seeds, a), seeds)
  {
    match a
    case DoPrepare(slot, r, now) =>
      if Prepares(w.t, seeds, r, now).Ok? { PrepareIsOk(w.t, seeds, r, now); }
    case DoApply(slot) =>
      if slot in w.waiting {
        var p := w.waiting[slot];
        hide Inv; hide PreparedOk; hide ApplyBatch; hide Saves; hide Applied;
        BatchOutcome(w.t, p);
        if Fresh(w.t, p) {
          AppliedKeeps(w.t, seeds, p);
          forall other | other in w.waiting ensures PreparedOk(Applied(w.t, p), seeds, w.waiting[other]) {
            StillOk(w.t, seeds, p, w.waiting[other]);
          }
        }
      }
  }

  lemma {:induction false} RunKeeps(w: World, seeds: Seeds, actions: seq<Action>)
    requires WorldInv(w, seeds)
    ensures WorldInv(Run(w, seeds, actions), seeds)
    decreases |actions|
  {
    hide WorldInv; hide Next;
    if actions != [] {
      RunKeeps(w, seeds, actions[..|actions| - 1]);
      StepKeeps(Run(w, seeds, actions[..|actions| - 1]), seeds, actions[|actions| - 1]);
    }
  }

  /**
   In every interleaving of allocators from an empty store: the indices of each
   namespace are exactly those below its next index, each held by one owner; the
   high-water revision is the next index; and it never passes 100,001.
   */
  lemma AllocationIsDense(seeds: Seeds, actions: seq<Action>, space: Space)
    ensures var t := Run(World(map[], map[]), seeds, actions).t;
            && Dense(t)
            && NextIndex(t, space) == Revision(t, HighKey(space)) <= MAX_KEY_INDEX + 1
            && (forall i: nat, owner: Owner | Holds(t, space, i, owner) :: i < NextIndex(t, space))
  {
    var start := World(map[], map[]);
    assert WorldInv(start, seeds) by {
      assert forall space: Space :: SpaceInv(start.t, seeds, space);
      assert forall owner: Owner :: OwnerInv(start.t, seeds, owner);
      assert Dense(start.t);
    }
    RunKeeps(start, seeds, actions);
    var t := Run(start, seeds, actions).t;
    hide Run; hide Dense;
    assert SpaceInv(t, seeds, space);
    forall i: nat, owner: Owner | Holds(t, space, i, owner) ensures i < NextIndex(t, space) {
      HeldIsBelow(t, seeds, space, i, owner);
    }
  }

  function AllocationAt(t: Rows, owner: Owner): Option<Allocation> {
    if BindingKey(owner) in t && t[BindingKey(owner)].value.Binding? then Some(t[BindingKey(owner)].value.allocation) else None
  }

  /** When the namespace last allocated. */
  function LastTime(t: Rows, space: Space): nat {
    if HighKey(space) in t && t[HighKey(space)].value.HighWater? then t[HighKey(space)].value.last else 0
  }

  // ---- Allocations stay loadable -------------------------------------------------------------------------

  lemma TopologyHolds(t: Rows, seeds: Seeds, owner: Owner)
    requires Inv(t, seeds) && BindingKey(owner) in t
    ensures ClaimKey(owner) in t && Bound(owner, t[BindingKey(owner)], t[ClaimKey(owner)])
    ensures var a := t[BindingKey(owner)].value.allocation;
            Topology(t, seeds, a) == Ok(LastTime(t, SpaceOf(RequestOf(a)))) && Rederives(seeds, a)
  {
    hide Dense;
    assert OwnerInv(t, seeds, owner);
    assert SpaceInv(t, seeds, SpaceOf(RequestOf(t[BindingKey(owner)].value.allocation)));
  }

  /** Every reachable store passes its own checks. */
  lemma AlwaysLoads(t: Rows, seeds: Seeds, owner: Owner)
    requires Inv(t, seeds)
    ensures Load(t, seeds, owner) == Ok(AllocationAt(t, owner)) && (BindingKey(owner) in t ==> AllocationAt(t, owner).Some?)
  {
    assert OwnerInv(t, seeds, owner);
    if BindingKey(owner) in t {
      TopologyHolds(t, seeds, owner);
      hide Topology;
    }
  }

  lemma StepKeepsBinding(w: World, seeds: Seeds, a: Action, owner: Owner)
    requires BindingKey(owner) in w.t && w.t[BindingKey(owner)].revision > 0
    ensures BindingKey(owner) in Next(w, seeds, a).t && Next(w, seeds, a).t[BindingKey(owner)] == w.t[BindingKey(owner)]
  {
    if a.DoApply? && a.slot in w.waiting { BatchOutcome(w.t, w.waiting[a.slot]); }
    hide ApplyBatch;
  }

  lemma {:induction false} BindingIsForever(w: World, seeds: Seeds, actions: seq<Action>, owner: Owner)
    requires BindingKey(owner) in w.t && w.t[BindingKey(owner)].revision > 0
    ensures BindingKey(owner) in Run(w, seeds, actions).t && Run(w, seeds, actions).t[BindingKey(owner)] == w.t[BindingKey(owner)]
    decreases |actions|
  {
    hide Next;
    if actions != [] {
      BindingIsForever(w, seeds, actions[..|actions| - 1], owner);
      StepKeepsBinding(Run(w, seeds, actions[..|actions| - 1]), seeds, actions[|actions| - 1], owner);
    }
  }

  /** Every successful allocation is returned identically for ever, whatever other allocators do. */
  lemma LoadsForever(w: World, seeds: Seeds, actions: seq<Action>, owner: Owner, a: Allocation)
    requires WorldInv(w, seeds) && Load(w.t, seeds, owner) == Ok(Some(a))
    ensures Load(Run(w, seeds, actions).t, seeds, owner) == Ok(Some(a))
  {
    AlwaysLoads(w.t, seeds, owner);
    assert OwnerInv(w.t, seeds, owner);
    BindingIsForever(w, seeds, actions, owner);
    RunKeeps(w, seeds, actions);
    hide Run; hide Load; hide Inv;
    AlwaysLoads(Run(w, seeds, actions).t, seeds, owner);
  }

  /**
   A retry for a bound owner: the same request with a clock not behind the
   namespace gets the same allocation, an earlier clock is refused, and any other
   terms, network or account is a conflict.
   */
  lemma RetryAnswers(t: Rows, seeds: Seeds, r: Request, now: nat)
    requires Inv(t, seeds) && BindingKey(OwnerOf(r)) in t
    ensures AllocationAt(t, OwnerOf(r)).Some?
    ensures var a := AllocationAt(t, OwnerOf(r)).value;
            Accept(t, seeds, a, r, now) ==
              if RequestOf(a) != r then Err(BindingConflict)
              else if now < LastTime(t, SpaceOf(r)) then Err(ClockRollback)
              else Ok(a)
  {
    TopologyHolds(t, seeds, OwnerOf(r));
    hide Topology; hide Inv;
  }

  // ---- The allocator ------------------------------------------------------------------------------------------

  /** The allocation exists and answers this very request. */
  ghost predicate Answers(t: Rows, seeds: Seeds, r: Request, a: Allocation) {
    Load(t, seeds, OwnerOf(r)) == Ok(Some(a)) && RequestOf(a) == r
  }

  lemma AppliedAnswers(t: Rows, seeds: Seeds, p: Prepared)
    requires Inv(t, seeds) && PreparedOk(t, seeds, p) && Fresh(t, p)
    ensures Answers(Applied(t, p), seeds, p.request, p.allocation) && Rederives(seeds, p.allocation)
  {
    AppliedKeeps(t, seeds, p);
    AlwaysLoads(Applied(t, p), seeds, OwnerOf(p.request));
    hide Inv; hide Load;
  }

  /**
   `allocate_bitcoin_swap_key`. Between its load and its own batch other allocators
   run freely: they prepare from the store as it then is and apply what they prepared.
   It keeps every store sound, returns only an allocation that answers the request,
   and gives up only after losing twice: indices of the namespace were allocated on
   the way, two of them unless the owner itself was bound.
   */
  method Allocate(store: WalletStore<Key, Record>, seeds: Seeds, r: Request, now: nat, waiting: map<nat, Prepared>, rivals: seq<seq<Action>>)
    returns (res: Result<Allocation, Error>)
    requires WorldInv(World(store.table, waiting), seeds) && |rivals| == MAX_ATTEMPTS
    modifies store
    ensures Inv(store.table, seeds)
    ensures res.Ok? ==> Answers(store.table, seeds, r, res.value)
    ensures BindingKey(OwnerOf(r)) in old(store.table) ==> store.table == old(store.table)
    ensures AllocationAt(old(store.table), OwnerOf(r)).Some? && ValidRequest(r) && now != 0 ==>
              res == Accept(old(store.table), seeds, AllocationAt(old(store.table), OwnerOf(r)).value, r, now)
    ensures res == Err(Concurrent) ==>
              && NextIndex(old(store.table), SpaceOf(r)) < NextIndex(store.table, SpaceOf(r))
              && (BindingKey(OwnerOf(r)) in store.table || NextIndex(old(store.table), SpaceOf(r)) + 2 <= NextIndex(store.table, SpaceOf(r)))
  {
    hide Inv; hide PreparedOk; hide ApplyBatch; hide Applied; hide Saves; hide Load; hide LoadHigh; hide Prepare; hide Accept;
    hide Run; hide NextIndex;
    AlwaysLoads(store.table, seeds, OwnerOf(r));
    if !ValidRequest(r) || now == 0 { return Err(InvalidRequest); }
    var existing := Load(store.table, seeds, OwnerOf(r));
    if existing.value.Some? {
      res := Accept(store.table, seeds, existing.value.value, r, now);
      AcceptAnswers(store.table, seeds, existing.value.value, r, now);
      return;
    }
    var others := waiting;
    var attempt := 0;
    while attempt < MAX_ATTEMPTS
      invariant 0 <= attempt < MAX_ATTEMPTS
      invariant WorldInv(World(store.table, others), seeds)
      invariant NextIndex(old(store.table), SpaceOf(r)) + attempt <= NextIndex(store.table, SpaceOf(r))
      invariant BindingKey(OwnerOf(r)) !in old(store.table) && AllocationAt(old(store.table), OwnerOf(r)).None?
      invariant Load(store.table, seeds, OwnerOf(r)) == Ok(None)
    {
      var high := LoadHigh(store.table, SpaceOf(r));
      if high.Err? { return Err(high.error); }
      var prepared := Prepare(seeds, r, now, high.value);
      if prepared.Err? { return Err(prepared.error); }
      var p := prepared.value;
      PrepareIsOk(store.table, seeds, r, now);
      PrepareIsFresh(store.table, seeds, r, now);
      var w := Run(World(store.table, others), seeds, rivals[attempt]);
      RunKeeps(World(store.table, others), seeds, rivals[attempt]);
      RunKeepsPrepared(World(store.table, others), seeds, rivals[attempt], p);
      LosesToRivals(w.t, seeds, p);
      store.table, others := w.t, w.waiting;
      BatchOutcome(store.table, p);
      if Fresh(store.table, p) {
        AppliedKeeps(store.table, seeds, p);
        AppliedAnswers(store.table, seeds, p);
      }
      var outcome := store.Apply(Saves(p), []);
      if outcome.Ok? {
        return Ok(p.allocation);
      }
      if attempt == 1 { return Err(Concurrent); }
      AlwaysLoads(store.table, seeds, OwnerOf(r));
      existing := Load(store.table, seeds, OwnerOf(r));
      if existing.value.Some? {
        res := Accept(store.table, seeds, existing.value.value, r, now);
        AcceptAnswers(store.table, seeds, existing.value.value, r, now);
        return;
      }
      attempt := attempt + 1;
    }
    res := Err(Concurrent);
  }

  lemma AcceptAnswers(t: Rows, seeds: Seeds, a: Allocation, r: Request, now: nat)
    requires Load(t, seeds, OwnerOf(r)) == Ok(Some(a))
    ensures Accept(t, seeds, a, r, now).Ok? ==> Answers(t, seeds, r, a) && Accept(t, seeds, a, r, now).value == a
  {
  }

  /** A batch prepared for an unbound owner is fresh until somebody else writes. */
  lemma PrepareIsFresh(t: Rows, seeds: Seeds, r: Request, now: nat)
    requires Inv(t, seeds) && Load(t, seeds, OwnerOf(r)) == Ok(None)
    requires LoadHigh(t, SpaceOf(r)).Ok? && Prepare(seeds, r, now, LoadHigh(t, SpaceOf(r)).value).Ok?
    ensures var p := Prepare(seeds, r, now, LoadHigh(t, SpaceOf(r)).value).value;
            Fresh(t, p) && p.expected == NextIndex(t, SpaceOf(r))
  {
    hide Dense;
    AlwaysLoads(t, seeds, OwnerOf(r));
    assert SpaceInv(t, seeds, SpaceOf(r)) && OwnerInv(t, seeds, OwnerOf(r));
  }

  lemma StepKeepsPrepared(w: World, seeds: Seeds, a: Action, p: Prepared)
    requires WorldInv(w, seeds) && PreparedOk(w.t, seeds, p)
    ensures PreparedOk(Next(w, seeds, a).t, seeds, p)
  {
    hide Inv; hide PreparedOk; hide ApplyBatch; hide Saves; hide Applied;
    if a.DoApply? && a.slot in w.waiting {
      var rival := w.waiting[a.slot];
      BatchOutcome(w.t, rival);
      if Fresh(w.t, rival) { StillOk(w.t, seeds, rival, p); }
    }
  }

  /** A prepared batch stays sound whatever other allocators do. */
  lemma {:induction false} RunKeepsPrepared(w: World, seeds: Seeds, actions: seq<Action>, p: Prepared)
    requires WorldInv(w, seeds) && PreparedOk(w.t, seeds, p)
    ensures PreparedOk(Run(w, seeds, actions).t, seeds, p)
    decreases |actions|
  {
    hide WorldInv; hide Next; hide PreparedOk;
    if actions != [] {
      var before := actions[..|actions| - 1];
      RunKeepsPrepared(w, seeds, before, p);
      RunKeeps(w, seeds, before);
      StepKeepsPrepared(Run(w, seeds, before), seeds, actions[|actions| - 1], p);
    }
  }

  /** A batch is lost only when its namespace has allocated past it or its owner is bound. */
  lemma LosesToRivals(t: Rows, seeds: Seeds, p: Prepared)
    requires Inv(t, seeds) && PreparedOk(t, seeds, p)
    ensures p.expected <= NextIndex(t, SpaceOf(p.request))
    ensures !Fresh(t, p) <==> p.expected < NextIndex(t, SpaceOf(p.request)) || BindingKey(OwnerOf(p.request)) in t
  {
    hide Dense;
    assert SpaceInv(t, seeds, SpaceOf(p.request));
    assert OwnerInv(t, seeds, OwnerOf(p.request));
  }

  /** A rival that prepares and applies in the same namespace makes a waiting batch stale. */
  lemma RivalMakesStale(w: World, seeds: Seeds, p: Prepared, slot: nat, q: Request, now: nat)
    requires WorldInv(w, seeds) && PreparedOk(w.t, seeds, p) && Fresh(w.t, p)
    requires SpaceOf(q) == SpaceOf(p.request) && BindingKey(OwnerOf(q)) !in w.t && Prepares(w.t, seeds, q, now).Ok?
    ensures !Fresh(Run(w, seeds, [DoPrepare(slot, q, now), DoApply(slot)]).t, p)
  {
    var a := [DoPrepare(slot, q, now), DoApply(slot)];
    assert a[..1] == [a[0]] && a[..1][..0] == [];
    var rival := Prepares(w.t, seeds, q, now).value;
    PrepareIsOk(w.t, seeds, q, now);
    var w1 := Next(w, seeds, a[0]);
    assert Run(w, seeds, a[..1]) == w1 && w1.t == w.t && w1.waiting[slot] == rival;
    assert Fresh(w.t, rival) by {
      AlwaysLoads(w.t, seeds, OwnerOf(q));
      PrepareIsFresh(w.t, seeds, q, now);
    }
    BatchOutcome(w.t, rival);
    hide ApplyBatch;
    assert Run(w, seeds, a).t == Applied(w.t, rival);
    AppliedNext(w.t, seeds, rival, SpaceOf(q));
    AppliedKeeps(w.t, seeds, rival);
    StillOk(w.t, seeds, rival, p);
    AppliedNext(w.t, seeds, p, SpaceOf(q));
    LosesToRivals(Applied(w.t, rival), seeds, p);
  }

  // ---- Reads that are not one transaction -----------------------------------------------------------------------

  /** `load_high_water` with its two reads at two times. */
  function LoadHighSplit(t1: Rows, t2: Rows, space: Space): Result<Option<Stored<Record>>, Error> {
    if HighKey(space) !in t1 && AnchorKey(space) !in t2 then Ok(None)
    else if HighKey(space) !in t1 || AnchorKey(space) !in t2 then Err(Corrupt)
    else
      var high, anchor := t1[HighKey(space)], t2[AnchorKey(space)];
      if !HighWaterValid(space, high) || !AnchorValid(space, anchor) || anchor.value.seed != high.value.seed then Err(Corrupt)
      else Ok(Some(high))
  }

  /** `load_bitcoin_swap_key_allocation` with its four reads at four times. */
  function LoadSplit(t1: Rows, t2: Rows, t3: Rows, t4: Rows, seeds: Seeds, owner: Owner): Result<Option<Allocation>, Error> {
    if BindingKey(owner) !in t1 && ClaimKey(owner) !in t2 then Ok(None)
    else if BindingKey(owner) !in t1 || ClaimKey(owner) !in t2 then Err(Corrupt)
    else if !Bound(owner, t1[BindingKey(owner)], t2[ClaimKey(owner)]) then Err(Corrupt)
    else
      var a := t1[BindingKey(owner)].value.allocation;
      match LoadHighSplit(t3, t4, SpaceOf(RequestOf(a)))
      case Err(e) => Err(e)
      case Ok(None) => Err(Corrupt)
      case Ok(Some(high)) =>
        if !high.value.HighWater? then Err(Corrupt)
        else if a.wallet !in seeds then Err(MissingSeed)
        else if a.reference.index >= high.value.next || a.at > high.value.last || a.seed != high.value.seed
                || a.seed != SeedCommitment(a.wallet, seeds[a.wallet])
        then Err(Corrupt)
        else Ok(Some(a))
  }

  /** Rows are never removed. */
  lemma {:induction false} RowsStay(w: World, seeds: Seeds, actions: seq<Action>, k: Key)
    requires k in w.t
    ensures k in Run(w, seeds, actions).t
    decreases |actions|
  {
    if actions != [] {
      var before, last := actions[..|actions| - 1], actions[|actions| - 1];
      RowsStay(w, seeds, before, k);
      var v := Run(w, seeds, before);
      if last.DoApply? && last.slot in v.waiting { BatchOutcome(v.t, v.waiting[last.slot]); }
      hide ApplyBatch;
    }
  }

  /**
   Other allocators between the two reads of a namespace: the load is the one at the
   first read, except that it calls the store corrupt exactly when the first
   allocation of the namespace was committed in between.
   */
  lemma SplitHighLoad(w: World, seeds: Seeds, actions: seq<Action>, space: Space)
    requires WorldInv(w, seeds)
    ensures var t2 := Run(w, seeds, actions).t;
            LoadHighSplit(w.t, t2, space) ==
              if HighKey(space) !in w.t && HighKey(space) in t2 then Err(Corrupt) else LoadHigh(w.t, space)
  {
    var t2 := Run(w, seeds, actions).t;
    RunKeeps(w, seeds, actions);
    if AnchorKey(space) in w.t { RowsStay(w, seeds, actions, AnchorKey(space)); }
    hide Run; hide Dense; hide OwnerInv;
    assert SpaceInv(w.t, seeds, space) && SpaceInv(t2, seeds, space);
  }

  /**
   Other allocators between any of the four reads of an owner's allocation: the load
   is the one at the first read, except that it calls the store corrupt exactly when
   the owner was bound between the first two reads.
   */
  lemma SplitLoad(w: World, seeds: Seeds, a1: seq<Action>, a2: seq<Action>, a3: seq<Action>, owner: Owner)
    requires WorldInv(w, seeds)
    ensures var w2 := Run(w, seeds, a1);
            var w3 := Run(w2, seeds, a2);
            var w4 := Run(w3, seeds, a3);
            LoadSplit(w.t, w2.t, w3.t, w4.t, seeds, owner) ==
              if BindingKey(owner) !in w.t && BindingKey(owner) in w2.t then Err(Corrupt) else Load(w.t, seeds, owner)
  {
    hide Run; hide WorldInv; hide Load; hide LoadHighSplit; hide LoadHigh; hide Inv;
    var w2 := Run(w, seeds, a1);
    var w3 := Run(w2, seeds, a2);
    RunKeeps(w, seeds, a1);
    RunKeeps(w2, seeds, a2);
    InvOf(w, seeds, owner);
    InvOf(w2, seeds, owner);
    InvOf(w3, seeds, owner);
    if BindingKey(owner) in w.t {
      BindingIsForever(w, seeds, a1, owner);
      BindingIsForever(w2, seeds, a2, owner);
      var space := SpaceOf(RequestOf(w.t[BindingKey(owner)].value.allocation));
      SplitHighLoad(w3, seeds, a3, space);
      HighLoads(w3, seeds, owner);
    }
  }

  lemma InvOf(w: World, seeds: Seeds, owner: Owner)
    requires WorldInv(w, seeds)
    ensures OwnerInv(w.t, seeds, owner) && Load(w.t, seeds, owner) == Ok(AllocationAt(w.t, owner))
  {
    AlwaysLoads(w.t, seeds, owner);
  }

  lemma HighLoads(w: World, seeds: Seeds, owner: Owner)
    requires WorldInv(w, seeds) && BindingKey(owner) in w.t && w.t[BindingKey(owner)].value.Binding?
    ensures var space := SpaceOf(RequestOf(w.t[BindingKey(owner)].value.allocation));
            && HighKey(space) in w.t && LoadHigh(w.t, space) == Ok(Some(w.t[HighKey(space)]))
            && w.t[HighKey(space)].value.HighWater? && space.wallet in seeds
            && w.t[HighKey(space)].value.seed == SeedCommitment(space.wallet, seeds[space.wallet])
  {
    hide Dense;
    var space := SpaceOf(RequestOf(w.t[BindingKey(owner)].value.allocation));
    assert OwnerInv(w.t, seeds, owner) && SpaceInv(w.t, seeds, space);
  }

  /** The first allocation of a namespace, committed between the two reads of another load. */
  lemma FirstCommitReadsCorrupt()
    ensures var r := Request(1, 1, 0, 0, Receiver, 1);
            var t := Run(World(map[], map[]), map[1 := 7], [DoPrepare(0, r, 1), DoApply(0)]).t;
            LoadHighSplit(map[], t, SpaceOf(r)) == Err(Corrupt) && LoadHigh(t, SpaceOf(r)).Ok?
  {
    var r := Request(1, 1, 0, 0, Receiver, 1);
    var seeds: Seeds := map[1 := 7];
    var a := [DoPrepare(0, r, 1), DoApply(0)];
    var start := World(map[], map[]);
    assert a[..1] == [a[0]] && a[..1][..0] == [];
    var p := Prepare(seeds, r, 1, None).value;
    assert Run(start, seeds, a[..1]) == World(map[], map[0 := p]);
    BatchOutcome(map[], p);
    hide ApplyBatch;
    assert Run(start, seeds, a).t == Applied(map[], p);
  }
}
