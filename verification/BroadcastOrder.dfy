/**
 The order in which a resume pass may submit approved transactions: every
 resumable transaction whose ancestry is not cut off by an exhausted one, parents
 first.
 */
module BroadcastOrder {
  import opened RecordStore
  import opened Broadcast

  /** The parents of each resumable transaction, by txid. */
  type Parents = map<nat, seq<nat>>

  datatype Entry = Entry(txid: nat, parents: seq<nat>)

  function InputTxids(inputs: seq<OutPoint>): (r: seq<nat>)
    ensures |r| == |inputs|
    ensures forall i | 0 <= i < |r| :: r[i] == inputs[i].txid
  {
    seq(|inputs|, i requires 0 <= i < |inputs| => inputs[i].txid)
  }

  function ResumableParents(records: seq<Record>): (m: Parents)
    ensures forall t :: t in m <==> exists i | 0 <= i < |records| :: records[i].txid == t && Resumable(records[i])
    ensures forall t | t in m ::
              exists i | 0 <= i < |records| ::
                records[i].txid == t && Resumable(records[i]) && m[t] == InputTxids(records[i].raw.value.inputs)
    decreases |records|
  {
    if records == [] then map[]
    else
      var last := records[|records| - 1];
      var m := ResumableParents(records[..|records| - 1]);
      if Resumable(last) then m[last.txid := InputTxids(last.raw.value.inputs)] else m
  }

  /** Approved and unobserved, yet out of retries. */
  function Exhausted(records: seq<Record>): set<nat> {
    set i | 0 <= i < |records| && records[i].raw.Some? && records[i].observation.Absent?
            && records[i].txid !in ResumableParents(records) :: records[i].txid
  }

  // ---- The meaning of the order ------------------------------------------------

  /** `path` goes from a resumable transaction, parent by parent, through resumable ones. */
  ghost predicate ParentPath(m: Parents, path: seq<nat>) {
    && |path| >= 2
    && (forall i | 0 <= i < |path| - 1 :: path[i] in m && path[i + 1] in m[path[i]])
  }

  /** Some ancestor reached only through resumable transactions is exhausted. */
  ghost predicate Blocked(m: Parents, exhausted: set<nat>, t: nat) {
    exists path :: ParentPath(m, path) && path[0] == t && path[|path| - 1] in exhausted
  }

  ghost predicate Free(m: Parents, exhausted: set<nat>, t: nat) {
    t in m && !Blocked(m, exhausted, t)
  }

  /** The free transactions depend on each other in a circle. */
  ghost predicate Cyclic(m: Parents, exhausted: set<nat>) {
    exists path :: ParentPath(m, path) && path[0] == path[|path| - 1]
                   && forall i | 0 <= i < |path| :: Free(m, exhausted, path[i])
  }

  function Listed(parents: seq<nat>, keys: set<nat>): (r: seq<nat>)
    ensures forall p :: p in r <==> p in parents && p in keys
  {
    if parents == [] then []
    else (if parents[0] in keys then [parents[0]] else []) + Listed(parents[1..], keys)
  }

  /** Exactly the free transactions, once each, with their resumable parents before them. */
  ghost predicate IsOrder(m: Parents, exhausted: set<nat>, order: seq<Entry>) {
    && (forall i, j | 0 <= i < j < |order| :: order[i].txid != order[j].txid)
    && (forall i | 0 <= i < |order| :: Free(m, exhausted, order[i].txid) && order[i].parents == Listed(m[order[i].txid], m.Keys))
    && (forall t | Free(m, exhausted, t) :: InOrder(order, t))
    && (forall i | 0 <= i < |order| :: ParentsBefore(order, i))
  }

  ghost predicate ParentsBefore(order: seq<Entry>, i: nat)
    requires i < |order|
  {
    forall p | p in order[i].parents :: exists j | 0 <= j < i :: order[j].txid == p
  }

  // ---- Blocking ------------------------------------------------------------------

  predicate HasParentIn(m: Parents, t: nat, s: set<nat>)
    requires t in m
  {
    exists p | p in m[t] :: p in s
  }

  /** Everything found blocked really is, by a path down to an exhausted ancestor. */
  ghost predicate SoundlyBlocked(m: Parents, exhausted: set<nat>, blocked: set<nat>) {
    && exhausted <= blocked
    && (forall t | t in blocked && t !in exhausted :: t in m && Blocked(m, exhausted, t))
  }

  lemma BlockChild(m: Parents, exhausted: set<nat>, blocked: set<nat>, t: nat)
    requires SoundlyBlocked(m, exhausted, blocked)
    requires t in m && HasParentIn(m, t, blocked)
    ensures Blocked(m, exhausted, t)
  {
    var p :| p in m[t] && p in blocked;
    if p in exhausted {
      assert ParentPath(m, [t, p]);
    } else {
      var path :| ParentPath(m, path) && path[0] == p && path[|path| - 1] in exhausted;
      var longer := [t] + path;
      forall i | 0 <= i < |longer| - 1 ensures longer[i] in m && longer[i + 1] in m[longer[i]] {
        if i > 0 { assert path[i - 1] in m && path[i] in m[path[i - 1]]; }
      }
      assert ParentPath(m, longer);
    }
  }

  /** Once no remaining transaction has a blocked parent, none of them is blocked. */
  lemma {:induction false} NoneBlocked(m: Parents, exhausted: set<nat>, blocked: set<nat>, path: seq<nat>)
    requires exhausted <= blocked
    requires forall t | t in m && t !in blocked :: !HasParentIn(m, t, blocked)
    requires ParentPath(m, path) && path[|path| - 1] in exhausted
    ensures path[0] in blocked
    decreases |path|
  {
    if |path| > 2 {
      var rest := path[1..];
      forall i | 0 <= i < |rest| - 1 ensures rest[i] in m && rest[i + 1] in m[rest[i]] {
        assert path[i + 1] in m && path[i + 1 + 1] in m[path[i + 1]];
      }
      NoneBlocked(m, exhausted, blocked, rest);
    }
    assert path[0] in m && path[0 + 1] in m[path[0]];
    var p := path[1];
    assert p in m[path[0]] && p in blocked;
    assert HasParentIn(m, path[0], blocked);
  }

  lemma Shrinks(m: Parents, s: set<nat>)
    requires s <= m.Keys && s != {}
    ensures (m - s).Keys == m.Keys - s && |(m - s).Keys| < |m.Keys|
  {
    assert |m.Keys - s| == |m.Keys| - |s|;
  }

  lemma RestIsFree(m: Parents, exhausted: set<nat>, blocked: set<nat>, t: nat)
    requires SoundlyBlocked(m, exhausted, blocked)
    requires forall x | x in m && x !in blocked :: !HasParentIn(m, x, blocked)
    requires t in m && t !in exhausted
    ensures Free(m, exhausted, t) <==> t !in blocked
  {
    if t !in blocked && Blocked(m, exhausted, t) {
      var path :| ParentPath(m, path) && path[0] == t && path[|path| - 1] in exhausted;
      NoneBlocked(m, exhausted, blocked, path);
    }
  }

  /** The state of the first loop: what is left and what is blocked split the transactions. */
  ghost predicate Blocking(m: Parents, exhausted: set<nat>, pending: Parents, blocked: set<nat>) {
    && SoundlyBlocked(m, exhausted, blocked)
    && pending.Keys <= m.Keys && pending.Keys !! blocked && m.Keys <= pending.Keys + blocked
    && (forall t | t in pending :: pending[t] == m[t])
  }

  lemma BlockRound(m: Parents, exhausted: set<nat>, pending: Parents, blocked: set<nat>, descendants: set<nat>)
    requires Blocking(m, exhausted, pending, blocked)
    requires descendants == set t | t in pending && HasParentIn(m, t, blocked)
    ensures Blocking(m, exhausted, pending - descendants, blocked + descendants)
  {
    forall t | t in descendants ensures Blocked(m, exhausted, t) {
      BlockChild(m, exhausted, blocked, t);
    }
    hide Blocked;
    assert (pending - descendants).Keys == pending.Keys - descendants;
  }

  lemma BlockingDone(m: Parents, exhausted: set<nat>, pending: Parents, blocked: set<nat>)
    requires Blocking(m, exhausted, pending, blocked) && exhausted !! m.Keys
    requires forall t | t in pending :: !HasParentIn(m, t, blocked)
    ensures pending.Keys == set t | t in m && Free(m, exhausted, t)
  {
    forall t | t in m ensures t in pending <==> Free(m, exhausted, t) {
      RestIsFree(m, exhausted, blocked, t);
    }
  }

  /** The first loop: drop every transaction with a blocked parent, until there is none. */
  method DropBlocked(m: Parents, exhausted: set<nat>) returns (pending: Parents)
    requires exhausted !! m.Keys
    ensures pending.Keys == set t | t in m && Free(m, exhausted, t)
    ensures forall t | t in pending :: pending[t] == m[t]
  {
    hide Free; hide Blocked; hide SoundlyBlocked;
    pending := m;
    var blocked := exhausted;
    NothingBlockedYet(m, exhausted);
    while true
      invariant Blocking(m, exhausted, pending, blocked)
      decreases |pending.Keys|
    {
      var descendants := set t | t in pending && HasParentIn(m, t, blocked);
      if descendants == {} {
        assert forall t | t in pending :: t !in descendants;
        break;
      }
      BlockRound(m, exhausted, pending, blocked, descendants);
      Shrinks(pending, descendants);
      pending := pending - descendants;
      blocked := blocked + descendants;
    }
    BlockingDone(m, exhausted, pending, blocked);
  }

  lemma NothingBlockedYet(m: Parents, exhausted: set<nat>)
    requires exhausted !! m.Keys
    ensures Blocking(m, exhausted, m, exhausted)
  {
  }

  // ---- Ordering --------------------------------------------------------------------

  predicate Waits(pending: Parents, t: nat)
    requires t in pending
  {
    exists p | p in pending[t] :: p in pending
  }

  /** A walk upwards that never leaves the stuck set. */
  lemma {:induction false} StuckWalk(pending: Parents, t: nat, n: nat) returns (path: seq<nat>)
    requires t in pending && forall x | x in pending :: Waits(pending, x)
    ensures |path| == n + 1 && path[0] == t
    ensures forall i | 0 <= i < |path| :: path[i] in pending
    ensures forall i | 0 <= i < |path| - 1 :: path[i + 1] in pending[path[i]]
    decreases n
  {
    if n == 0 {
      path := [t];
    } else {
      assert Waits(pending, t);
      var p :| p in pending[t] && p in pending;
      var rest := StuckWalk(pending, p, n - 1);
      path := [t] + rest;
    }
  }

  /** A sequence longer than the set it draws from repeats an element. */
  lemma {:induction false} Repeats(s: set<nat>, path: seq<nat>) returns (i: nat, j: nat)
    requires |path| > |s| && forall k | 0 <= k < |path| :: path[k] in s
    ensures i < j < |path| && path[i] == path[j]
    decreases |path|
  {
    var last := path[|path| - 1];
    if k :| 0 <= k < |path| - 1 && path[k] == last {
      i, j := k, |path| - 1;
    } else {
      i, j := Repeats(s - {last}, path[..|path| - 1]);
    }
  }

  /** The part of a walk between two visits to one transaction is a cycle. */
  lemma CycleOnWalk(m: Parents, exhausted: set<nat>, path: seq<nat>, i: nat, j: nat)
    requires i < j < |path| && path[i] == path[j]
    requires forall k | 0 <= k < |path| :: Free(m, exhausted, path[k])
    requires forall k | 0 <= k < |path| - 1 :: path[k] in m && path[k + 1] in m[path[k]]
    ensures Cyclic(m, exhausted)
  {
    hide Blocked;
    var cycle := path[i..j + 1];
    assert forall k | 0 <= k < |cycle| :: cycle[k] == path[i + k];
    forall k | 0 <= k < |cycle| - 1 ensures cycle[k] in m && cycle[k + 1] in m[cycle[k]] {
      var at := i + k;
      assert path[at + 1] in m[path[at]];
    }
    assert ParentPath(m, cycle) && cycle[0] == cycle[|cycle| - 1];
    assert forall k | 0 <= k < |cycle| :: Free(m, exhausted, cycle[k]);
  }

  /** When every remaining transaction waits for another, there is a cycle. */
  lemma StuckIsCyclic(m: Parents, exhausted: set<nat>, pending: Parents)
    requires pending != map[] && forall t | t in pending :: Waits(pending, t)
    requires forall t | t in pending :: Free(m, exhausted, t) && pending[t] == m[t]
    ensures Cyclic(m, exhausted)
  {
    hide Blocked;
    assert pending.Keys != {};
    var t :| t in pending.Keys;
    var path := StuckWalk(pending, t, |pending.Keys|);
    var i, j := Repeats(pending.Keys, path);
    forall k | 0 <= k < |path| - 1 ensures path[k] in m && path[k + 1] in m[path[k]] {
      assert path[k] in pending && Free(m, exhausted, path[k]);
      assert path[k + 1] in pending[path[k]];
    }
    CycleOnWalk(m, exhausted, path, i, j);
  }

  /** A full order exists only without cycles: on a cycle some transaction would precede itself. */
  lemma OrderIsAcyclic(m: Parents, exhausted: set<nat>, order: seq<Entry>)
    requires IsOrder(m, exhausted, order)
    ensures !Cyclic(m, exhausted)
  {
    if Cyclic(m, exhausted) {
      var path :| ParentPath(m, path) && path[0] == path[|path| - 1]
                  && forall i | 0 <= i < |path| :: Free(m, exhausted, path[i]);
      var last := Position(m, exhausted, order, path, |path| - 1);
      var first := Position(m, exhausted, order, path, 0);
      assert order[first].txid == order[last].txid;
      Descends(m, exhausted, order, path, |path| - 1, first, last);
    }
  }

  lemma Position(m: Parents, exhausted: set<nat>, order: seq<Entry>, path: seq<nat>, i: nat) returns (k: nat)
    requires IsOrder(m, exhausted, order) && i < |path| && Free(m, exhausted, path[i])
    ensures k < |order| && order[k].txid == path[i]
  {
    assert InOrder(order, path[i]);
    k :| 0 <= k < |order| && order[k].txid == path[i];
  }

  /** Going up a path of free transactions goes strictly back in the order. */
  lemma {:induction false} Descends(m: Parents, exhausted: set<nat>, order: seq<Entry>, path: seq<nat>, n: nat, from: nat, to: nat)
    requires IsOrder(m, exhausted, order) && ParentPath(m, path) && 1 <= n < |path|
    requires forall i | 0 <= i < |path| :: Free(m, exhausted, path[i])
    requires from < |order| && to < |order| && order[from].txid == path[0] && order[to].txid == path[n]
    ensures to < from
    decreases n
  {
    var before := Position(m, exhausted, order, path, n - 1);
    if n > 1 {
      Descends(m, exhausted, order, path, n - 1, from, before);
    }
    assert path[n] in order[before].parents;
    assert ParentsBefore(order, before);
    var j :| 0 <= j < before && order[j].txid == path[n];
    assert j == to;
    assert n == 1 ==> before == from;
  }

  /** What the second loop has placed so far. */
  ghost predicate Placed(m: Parents, exhausted: set<nat>, pending: Parents, order: seq<Entry>) {
    && (forall i, j | 0 <= i < j < |order| :: order[i].txid != order[j].txid)
    && (forall i | 0 <= i < |order| ::
          Free(m, exhausted, order[i].txid) && order[i].txid !in pending && order[i].parents == Listed(m[order[i].txid], m.Keys))
    && (forall t | t in pending :: Free(m, exhausted, t) && pending[t] == m[t])
    && (forall t | Free(m, exhausted, t) :: t in pending || InOrder(order, t))
    && (forall i | 0 <= i < |order| :: ParentsBefore(order, i))
  }

  /** A parent of a free transaction is free too, unless it is not resumable at all. */
  lemma ParentOfFree(m: Parents, exhausted: set<nat>, t: nat, p: nat)
    requires Free(m, exhausted, t) && p in m[t] && p in m
    ensures Free(m, exhausted, p)
  {
    if Blocked(m, exhausted, p) {
      BlockChild(m, exhausted, exhausted + {p}, t);
    }
  }

  ghost predicate InOrder(order: seq<Entry>, t: nat) {
    exists i | 0 <= i < |order| :: order[i].txid == t
  }

  lemma ExtendOrder(order: seq<Entry>, e: Entry)
    requires forall i | 0 <= i < |order| :: ParentsBefore(order, i)
    requires forall p | p in e.parents :: InOrder(order, p)
    ensures forall i | 0 <= i <= |order| :: ParentsBefore(order + [e], i)
    ensures forall t :: InOrder(order + [e], t) <==> InOrder(order, t) || t == e.txid
  {
    var longer := order + [e];
    forall i, p | 0 <= i < |order| && p in longer[i].parents ensures exists j | 0 <= j < i :: longer[j].txid == p {
      assert ParentsBefore(order, i);
      var j :| 0 <= j < i && order[j].txid == p;
      assert longer[j].txid == p;
    }
    forall p | p in e.parents ensures exists j | 0 <= j < |order| :: longer[j].txid == p {
      assert InOrder(order, p);
      var j :| 0 <= j < |order| && order[j].txid == p;
      assert longer[j].txid == p;
    }
    forall t ensures InOrder(longer, t) <==> InOrder(order, t) || t == e.txid {
      if InOrder(order, t) {
        var j :| 0 <= j < |order| && order[j].txid == t;
        assert longer[j].txid == t;
      }
      if t == e.txid { assert longer[|order|].txid == t; }
    }
  }

  lemma ParentsPlaced(m: Parents, exhausted: set<nat>, pending: Parents, order: seq<Entry>, t: nat)
    requires Placed(m, exhausted, pending, order) && t in pending
    requires forall p | p in pending[t] :: p !in pending
    ensures forall p | p in Listed(pending[t], m.Keys) :: InOrder(order, p)
  {
    hide Blocked;
    forall p | p in Listed(pending[t], m.Keys) ensures InOrder(order, p) {
      ParentOfFree(m, exhausted, t, p);
    }
  }

  lemma PlaceOne(m: Parents, exhausted: set<nat>, pending: Parents, order: seq<Entry>, t: nat)
    requires Placed(m, exhausted, pending, order) && t in pending
    requires forall p | p in pending[t] :: p !in pending
    ensures Placed(m, exhausted, pending - {t}, order + [Entry(t, Listed(pending[t], m.Keys))])
  {
    hide Free; hide Listed; hide ParentsBefore; hide InOrder;
    var e := Entry(t, Listed(pending[t], m.Keys));
    ParentsPlaced(m, exhausted, pending, order, t);
    ExtendOrder(order, e);
  }

  /** One round: place, in ascending order, every transaction that waits for nothing. */
  method PlaceReady(m: Parents, exhausted: set<nat>, before: Parents, ready: seq<nat>, placed: seq<Entry>)
    returns (pending: Parents, order: seq<Entry>)
    requires Placed(m, exhausted, before, placed)
    requires forall i, j | 0 <= i < j < |ready| :: ready[i] != ready[j]
    requires forall i | 0 <= i < |ready| :: ready[i] in before && !Waits(before, ready[i])
    ensures Placed(m, exhausted, pending, order)
    ensures pending == before - (set i | 0 <= i < |ready| :: ready[i])
  {
    hide Free; hide Listed;
    pending, order := before, placed;
    var k := 0;
    while k < |ready|
      invariant 0 <= k <= |ready|
      invariant Placed(m, exhausted, pending, order)
      invariant pending == before - (set i | 0 <= i < k :: ready[i])
    {
      var t := ready[k];
      assert t in pending && pending[t] == before[t];
      assert !Waits(before, t);
      PlaceOne(m, exhausted, pending, order, t);
      order := order + [Entry(t, Listed(pending[t], m.Keys))];
      pending := pending - {t};
      k := k + 1;
    }
  }

  /** A set of txids as the ordered map iterates it; only that each comes once matters. */
  method Enumerate(s: set<nat>) returns (r: seq<nat>)
    ensures forall i, j | 0 <= i < j < |r| :: r[i] != r[j]
    ensures forall x :: x in r <==> x in s
  {
    r := [];
    var rest := s;
    while rest != {}
      invariant rest <= s
      invariant forall i, j | 0 <= i < j < |r| :: r[i] != r[j]
      invariant forall x :: x in r <==> x in s && x !in rest
      decreases |rest|
    {
      var x :| x in rest;
      r := r + [x];
      rest := rest - {x};
    }
  }

  lemma NothingPlacedYet(m: Parents, exhausted: set<nat>, free: Parents)
    requires free.Keys == set t | t in m && Free(m, exhausted, t)
    requires forall t | t in free :: t in m && free[t] == m[t]
    ensures Placed(m, exhausted, free, [])
  {
    hide Blocked;
  }

  lemma AllPlaced(m: Parents, exhausted: set<nat>, order: seq<Entry>)
    requires Placed(m, exhausted, map[], order)
    ensures IsOrder(m, exhausted, order)
  {
    hide Free;
  }

  lemma NoneReady(m: Parents, exhausted: set<nat>, pending: Parents, order: seq<Entry>)
    requires Placed(m, exhausted, pending, order) && pending != map[]
    requires forall t | t in pending :: Waits(pending, t)
    ensures Cyclic(m, exhausted)
  {
    hide Blocked;
    StuckIsCyclic(m, exhausted, pending);
  }

  /** The second loop: place the ready ones round by round; a round with none is a cycle. */
  method PlaceAll(m: Parents, exhausted: set<nat>, free: Parents) returns (r: Result<seq<Entry>, Error>)
    requires free.Keys == set t | t in m && Free(m, exhausted, t)
    requires forall t | t in free :: t in m && free[t] == m[t]
    ensures r.Ok? ==> IsOrder(m, exhausted, r.value)
    ensures r.Err? ==> r.error == InvalidEvidence && Cyclic(m, exhausted)
  {
    hide Free; hide Placed; hide IsOrder; hide Cyclic;
    var pending, order := free, [];
    NothingPlacedYet(m, exhausted, free);
    while pending != map[]
      invariant Placed(m, exhausted, pending, order)
      decreases |pending.Keys|
    {
      var readySet := set t | t in pending && !Waits(pending, t);
      if readySet == {} {
        assert forall t | t in pending :: t !in readySet;
        NoneReady(m, exhausted, pending, order);
        return Err(InvalidEvidence);
      }
      var ready := Enumerate(readySet);
      forall i | 0 <= i < |ready| ensures ready[i] in pending && !Waits(pending, ready[i]) {
        assert ready[i] in ready;
      }
      var next, longer := PlaceReady(m, exhausted, pending, ready, order);
      assert (set i | 0 <= i < |ready| :: ready[i]) == readySet;
      Shrinks(pending, readySet);
      pending, order := next, longer;
    }
    AllPlaced(m, exhausted, order);
    r := Ok(order);
  }

  /**
   `approved_broadcast_order`: a valid order of exactly the free transactions
   when they are acyclic, and an error exactly when they are not.
   */
  method ApprovedOrder(records: seq<Record>) returns (r: Result<seq<Entry>, Error>)
    ensures (exists i | 0 <= i < |records| :: !Valid(records[i])) <==> r == Err(Corrupt)
    ensures r.Ok? ==> IsOrder(ResumableParents(records), Exhausted(records), r.value)
    ensures r == Err(InvalidEvidence) ==> Cyclic(ResumableParents(records), Exhausted(records))
    ensures r.Ok? ==> !Cyclic(ResumableParents(records), Exhausted(records))
    ensures r.Ok? || r == Err(Corrupt) || r == Err(InvalidEvidence)
  {
    var i := 0;
    while i < |records|
      invariant 0 <= i <= |records|
      invariant forall k | 0 <= k < i :: Valid(records[k])
    {
      if !Valid(records[i]) {
        return Err(Corrupt);
      }
      i := i + 1;
    }
    var m := ResumableParents(records);
    var exhausted := Exhausted(records);
    var free := DropBlocked(m, exhausted);
    r := PlaceAll(m, exhausted, free);
    if r.Ok? {
      OrderIsAcyclic(m, exhausted, r.value);
    }
  }

  // ---- One resume pass -----------------------------------------------------------------

  datatype Reply = Receipt | Deferred | Fatal

  datatype Call = Call(txid: nat, reply: Reply)

  ghost predicate Called(calls: seq<Call>, t: nat) {
    exists c | c in calls :: c.txid == t
  }

  /** Some resumable parent was not submitted with success in this pass. */
  ghost predicate Held(calls: seq<Call>, e: Entry) {
    exists p | p in e.parents :: Call(p, Receipt) !in calls
  }

  ghost predicate ParentsSucceeded(m: Parents, calls: seq<Call>, i: nat)
    requires i < |calls|
  {
    calls[i].txid in m && forall p | p in m[calls[i].txid] && p in m :: Call(p, Receipt) in calls[..i]
  }

  /** What a pass promises of the submissions it made. */
  ghost predicate GoodPass(m: Parents, replies: map<nat, Reply>, calls: seq<Call>) {
    && (forall i | 0 <= i < |calls| :: ParentsSucceeded(m, calls, i))
    && (forall i, j | 0 <= i < j < |calls| :: calls[i].txid != calls[j].txid)
    && (forall i | 0 <= i < |calls| :: calls[i].txid in replies && calls[i].reply == replies[calls[i].txid])
  }

  /** The first `k` entries were each called, or are held by a parent that is deferred. */
  ghost predicate Passed(order: seq<Entry>, k: nat, calls: seq<Call>, deferred: set<nat>)
    requires k <= |order|
  {
    && (forall c | c in calls :: c.reply != Fatal && exists j | 0 <= j < k :: order[j].txid == c.txid)
    && (forall d | d in deferred :: Call(d, Receipt) !in calls && exists j | 0 <= j < k :: order[j].txid == d)
    && (forall j | 0 <= j < k :: order[j].txid in deferred || Call(order[j].txid, Receipt) in calls)
    && (forall j | 0 <= j < k :: Called(calls, order[j].txid) || exists p | p in order[j].parents :: p in deferred)
  }

  lemma PassSkip(m: Parents, exhausted: set<nat>, order: seq<Entry>, k: nat, calls: seq<Call>, deferred: set<nat>)
    requires IsOrder(m, exhausted, order) && k < |order| && Passed(order, k, calls, deferred)
    requires exists p | p in order[k].parents :: p in deferred
    ensures Passed(order, k + 1, calls, deferred + {order[k].txid})
  {
    hide Free; hide Listed; hide ParentsBefore;
    assert Call(order[k].txid, Receipt) !in calls;
    hide IsOrder;
    var after := deferred + {order[k].txid};
    forall j | 0 <= j < k + 1
      ensures order[j].txid in after || Call(order[j].txid, Receipt) in calls
      ensures Called(calls, order[j].txid) || exists p | p in order[j].parents :: p in after
    {
      if j == k {
        var p :| p in order[k].parents && p in deferred;
        assert p in after;
      } else if !Called(calls, order[j].txid) {
        var p :| p in order[j].parents && p in deferred;
        assert p in after;
      }
    }
  }

  lemma PassCall(m: Parents, exhausted: set<nat>, order: seq<Entry>, k: nat, calls: seq<Call>, deferred: set<nat>,
                 reply: Reply)
    requires IsOrder(m, exhausted, order) && k < |order| && Passed(order, k, calls, deferred) && reply != Fatal
    ensures Passed(order, k + 1, calls + [Call(order[k].txid, reply)],
                   if reply == Deferred then deferred + {order[k].txid} else deferred)
  {
    hide Free; hide Listed;
    var t := order[k].txid;
    var longer := calls + [Call(t, reply)];
    assert forall c :: c in longer <==> c in calls || c == Call(t, reply);
    assert Call(t, reply) in longer;
    assert t !in deferred;
    forall j | 0 <= j < k && Called(calls, order[j].txid) ensures Called(longer, order[j].txid) {
      var c :| c in calls && c.txid == order[j].txid;
      assert c in longer;
    }
    assert Call(t, Receipt) !in calls;
  }

  lemma ExtendPass(m: Parents, exhausted: set<nat>, order: seq<Entry>, k: nat, calls: seq<Call>, deferred: set<nat>,
                   replies: map<nat, Reply>)
    requires IsOrder(m, exhausted, order) && k < |order| && Passed(order, k, calls, deferred)
    requires order[k].txid in replies && GoodPass(m, replies, calls)
    requires forall p | p in order[k].parents :: p !in deferred
    ensures GoodPass(m, replies, calls + [Call(order[k].txid, replies[order[k].txid])])
  {
    hide Free; hide Listed;
    var t := order[k].txid;
    var longer := calls + [Call(t, replies[t])];
    assert t in m by { hide *; assert Free(m, exhausted, t); FreeIsResumable(m, exhausted, t); }
    forall p | p in m[t] && p in m ensures Call(p, Receipt) in calls {
      assert p in order[k].parents by { ListsParent(m, exhausted, order, k, p); }
      assert ParentsBefore(order, k);
      var j :| 0 <= j < k && order[j].txid == p;
    }
    forall i | 0 <= i < |longer| ensures ParentsSucceeded(m, longer, i) {
      if i < |calls| {
        assert ParentsSucceeded(m, calls, i);
        assert longer[..i] == calls[..i];
      } else {
        assert longer[..i] == calls;
      }
    }
    forall i | 0 <= i < |calls| ensures calls[i].txid != t {
      assert calls[i] in calls;
      var j :| 0 <= j < k && order[j].txid == calls[i].txid;
    }
  }

  lemma FreeIsResumable(m: Parents, exhausted: set<nat>, t: nat)
    requires Free(m, exhausted, t)
    ensures t in m
  {
  }

  lemma ListsParent(m: Parents, exhausted: set<nat>, order: seq<Entry>, k: nat, p: nat)
    requires IsOrder(m, exhausted, order) && k < |order|
    requires order[k].txid in m && p in m[order[k].txid] && p in m
    ensures p in order[k].parents
  {
  }

  /** Every entry was called, or is held by a parent that did not succeed. */
  lemma PassDone(order: seq<Entry>, calls: seq<Call>, deferred: set<nat>)
    requires Passed(order, |order|, calls, deferred)
    ensures forall e | e in order :: Called(calls, e.txid) || Held(calls, e)
  {
    forall e | e in order ensures Called(calls, e.txid) || Held(calls, e) {
      var j :| 0 <= j < |order| && order[j] == e;
      if !Called(calls, order[j].txid) {
        var p :| p in order[j].parents && p in deferred;
        assert Call(p, Receipt) !in calls;
      }
    }
  }

  lemma CalledAreFree(m: Parents, exhausted: set<nat>, order: seq<Entry>, k: nat, calls: seq<Call>, deferred: set<nat>)
    requires IsOrder(m, exhausted, order) && k <= |order| && Passed(order, k, calls, deferred)
    ensures forall i | 0 <= i < |calls| :: Free(m, exhausted, calls[i].txid)
  {
    hide Free; hide Listed;
    forall i | 0 <= i < |calls| ensures Free(m, exhausted, calls[i].txid) {
      assert calls[i] in calls;
      var j :| 0 <= j < k && order[j].txid == calls[i].txid;
    }
  }

  /**
   The loop of `resume_approved_broadcasts`, for whatever replies the submissions
   get. A transaction is submitted only after every resumable parent of it was
   submitted with success in this same pass; unless a submission fails for good,
   it is held back only when some parent was not.
   */
  method ResumePass(m: Parents, exhausted: set<nat>, order: seq<Entry>, replies: map<nat, Reply>) returns (calls: seq<Call>)
    requires IsOrder(m, exhausted, order)
    requires forall i | 0 <= i < |order| :: order[i].txid in replies
    ensures GoodPass(m, replies, calls)
    ensures forall i | 0 <= i < |calls| - 1 :: calls[i].reply != Fatal
    ensures forall i | 0 <= i < |calls| :: Free(m, exhausted, calls[i].txid)
    ensures (forall c | c in calls :: c.reply != Fatal) ==>
              forall e | e in order :: Called(calls, e.txid) || Held(calls, e)
  {
    hide Free; hide Listed; hide IsOrder; hide Passed; hide GoodPass; hide Called; hide Held;
    calls := [];
    var deferred: set<nat> := {};
    var k := 0;
    PassStart(m, order, replies);
    while k < |order|
      invariant 0 <= k <= |order|
      invariant Passed(order, k, calls, deferred)
      invariant GoodPass(m, replies, calls)
    {
      var entry := order[k];
      if exists p | p in entry.parents :: p in deferred {
        PassSkip(m, exhausted, order, k, calls, deferred);
        deferred := deferred + {entry.txid};
      } else {
        var reply := replies[entry.txid];
        ExtendPass(m, exhausted, order, k, calls, deferred, replies);
        if reply == Fatal {
          CalledAreFree(m, exhausted, order, k, calls, deferred);
          EntryIsFree(m, exhausted, order, k);
          NoneFatal(order, k, calls, deferred);
          calls := calls + [Call(entry.txid, reply)];
          assert calls[|calls| - 1] in calls;
          return;
        }
        PassCall(m, exhausted, order, k, calls, deferred, reply);
        calls := calls + [Call(entry.txid, reply)];
        if reply == Deferred {
          deferred := deferred + {entry.txid};
        }
      }
      k := k + 1;
    }
    PassDone(order, calls, deferred);
    CalledAreFree(m, exhausted, order, k, calls, deferred);
    NoneFatal(order, k, calls, deferred);
  }

  lemma PassStart(m: Parents, order: seq<Entry>, replies: map<nat, Reply>)
    ensures Passed(order, 0, [], {}) && GoodPass(m, replies, [])
  {
  }

  lemma EntryIsFree(m: Parents, exhausted: set<nat>, order: seq<Entry>, k: nat)
    requires IsOrder(m, exhausted, order) && k < |order|
    ensures Free(m, exhausted, order[k].txid)
  {
  }

  lemma NoneFatal(order: seq<Entry>, k: nat, calls: seq<Call>, deferred: set<nat>)
    requires k <= |order| && Passed(order, k, calls, deferred)
    ensures forall i | 0 <= i < |calls| :: calls[i].reply != Fatal
  {
    forall i | 0 <= i < |calls| ensures calls[i].reply != Fatal {
      assert calls[i] in calls;
    }
  }
}
