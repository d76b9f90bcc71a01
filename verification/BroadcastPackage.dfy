/**
 The life of one recovery package: a chain of publication transactions, each
 spending the one before, with the funding transaction last. Members are
 committed in order, submitted by resume passes, observed, and dropped at expiry.
 */
module BroadcastPackage {
  import opened RecordStore
  import opened Broadcast
  import opened BroadcastOrder
  import opened BroadcastJournal
  import opened BroadcastAbandon

  /** The package with the approval of each member. */
  datatype Package = Package(txs: seq<Tx>, approvals: seq<Approval>, network: int, expiry: nat)

  ghost predicate WellFormed(p: Package) {
    && |p.txs| == |p.approvals| > 0
    && (forall i, j | 0 <= i < j < |p.txs| :: p.txs[i].txid != p.txs[j].txid)
    && (forall i | 0 <= i < |p.txs| :: IsPublication(p.txs[i]))
    && (forall i | 0 <= i < |p.txs| :: IsRecoverableFunding(p.txs[i]) <==> i == |p.txs| - 1)
    && (forall i | 0 < i < |p.txs| :: SpendsFrom(p.txs[i], p.txs[i - 1].txid))
    && (forall i, j | 0 <= i < |p.txs| && 0 <= j < |p.txs| && SpendsFrom(p.txs[i], p.txs[j].txid) :: j == i - 1)
    && (forall i | 0 <= i < |p.txs| :: p.approvals[i].expiresAt == p.expiry && p.approvals[i].network == p.network)
  }

  predicate SpendsFrom(tx: Tx, txid: nat) {
    txid in InputTxids(tx.inputs)
  }

  predicate Committed(rows: Rows, tx: Tx) {
    tx.txid in rows && rows[tx.txid].value.broadcast.Some?
  }

  predicate Attempted(rows: Rows, tx: Tx) {
    Committed(rows, tx) && rows[tx.txid].value.broadcast.value.attempts > 0
  }

  ghost predicate Member(p: Package, id: nat) {
    exists i | 0 <= i < |p.txs| :: p.txs[i].txid == id
  }

  // ---- The steps ------------------------------------------------------------------------

  /** A resume pass: when it began, the records it ordered and what succeeded so far. */
  datatype Pass = Pass(now: nat, start: Rows, done: set<nat>)

  datatype Send = Send(txid: nat, now: nat)

  datatype Life = Life(rows: Rows, clock: nat, pass: Option<Pass>, sends: seq<Send>)

  datatype Action =
    | Commit(now: nat, upTo: nat, tests: seq<CommittedInputs>)
    | StartPass(now: nat, after: Rows)
    | Submit(txid: nat, now: nat)
    | Finish(member: nat)
    | Observe(member: nat, seen: Option<Seen>, now: nat)
    | Outside(after: Rows)

  datatype Progress = Progress(rows: Rows, ok: bool)

  /** The commit loop, stopped before member `k` or at the first refusal. */
  function Committing(p: Package, rows: Rows, k: nat, now: nat, tests: seq<CommittedInputs>): Progress
    requires k <= |p.txs| && |p.txs| == |p.approvals| && k <= |tests|
    decreases k
  {
    if k == 0 then Progress(rows, true)
    else
      var before := Committing(p, rows, k - 1, now, tests);
      if !before.ok then before
      else
        var tx := p.txs[k - 1];
        match Approve(before.rows, tx, p.approvals[k - 1], Revision(before.rows, tx.txid), now, tests[k - 1])
        case Ok(next) => Progress(next, true)
        case Err(_) => Progress(before.rows, false)
  }

  /** The record cannot be resumed any more, so nothing that spends it is listed. */
  predicate Spent(r: Record) {
    r.raw.Some? && r.observation.Absent? && !Resumable(r)
  }

  /** The pass lists the transaction and every resumable parent of it has succeeded. */
  predicate Callable(pass: Pass, id: nat) {
    && id in pass.start && Resumable(pass.start[id].value)
    && forall q | q in InputTxids(pass.start[id].value.raw.value.inputs) ::
         q in pass.start ==> !Spent(pass.start[q].value) && (Resumable(pass.start[q].value) ==> q in pass.done)
  }

  /** Records outside the package spend a member only after it was attempted. */
  ghost predicate OutsideOk(p: Package, rows: Rows) {
    forall id | id in rows && !Member(p, id) && rows[id].value.raw.Some? ::
      forall i | 0 <= i < |p.txs| && SpendsFrom(rows[id].value.raw.value, p.txs[i].txid) :: Attempted(rows, p.txs[i])
  }

  ghost predicate SameMembers(p: Package, a: Rows, b: Rows) {
    forall i | 0 <= i < |p.txs| :: SameMember(p.txs[i], a, b)
  }

  predicate SameMember(tx: Tx, a: Rows, b: Rows) {
    (tx.txid in a <==> tx.txid in b) && (tx.txid in a ==> a[tx.txid] == b[tx.txid])
  }

  /** A submission reads the clock again: it is made at the time of the state, not at the time of the pass. */
  function AfterSubmit(p: Package, w: Life, pass: Pass, id: nat): Life {
    match Begin(w.rows, p.network, id, w.clock)
    case Submit(rows, _, _) =>
      w.(rows := rows, pass := Some(pass.(done := pass.done + {id})), sends := w.sends + [Send(id, w.clock)])
    case Observed => w.(pass := Some(pass.(done := pass.done + {id})))
    case Refused(rows, _) => w.(rows := rows)
  }

  function AfterFinishing(w: Life, tx: Tx): Life {
    if Committed(w.rows, tx) && w.rows[tx.txid].value.broadcast.value.phase == SubmissionStarted
       && w.rows[tx.txid].value.broadcast.value.startedAt.Some?
       && w.rows[tx.txid].value.broadcast.value.startedAt.value >= 0
    then w.(rows := Put(w.rows, tx.txid, Sent(w.rows[tx.txid].value, w.rows[tx.txid].value.broadcast.value.startedAt.value)))
    else w
  }

  function AfterObserving(w: Life, tx: Tx, seen: Option<Seen>, now: nat): Life {
    var prior := if tx.txid in w.rows then Some(w.rows[tx.txid].value) else None;
    var next := Reconciled(prior, tx.txid, seen, now);
    if next.None? || next == prior || (seen.Some? && !Attempted(w.rows, tx)) then w
    else w.(rows := Put(w.rows, tx.txid, next.value))
  }

  /** A step; one that its guard excludes changes nothing. */
  ghost function Next(p: Package, w: Life, a: Action): Life {
    match a
    case Commit(now, upTo, tests) =>
      if upTo <= |p.txs| == |p.approvals| && upTo <= |tests| && w.clock <= now
      then w.(rows := Committing(p, w.rows, upTo, now, tests).rows, clock := now) else w
    case StartPass(now, after) =>
      if w.clock <= now && OnlyPublications(w.rows, now) && Abandoned(w.rows, now, after)
      then w.(rows := after, clock := now, pass := Some(Pass(now, after, {}))) else w
    case Submit(id, now) =>
      if w.clock <= now && w.pass.Some? && Callable(w.pass.value, id)
      then AfterSubmit(p, w.(clock := now), w.pass.value, id) else w
    case Finish(i) => if i < |p.txs| then AfterFinishing(w, p.txs[i]) else w
    case Observe(i, seen, now) => if i < |p.txs| then AfterObserving(w, p.txs[i], seen, now) else w
    case Outside(after) =>
      if SameMembers(p, w.rows, after) && OutsideOk(p, after) then w.(rows := after) else w
  }

  ghost function Run(p: Package, w: Life, actions: seq<Action>): Life
    decreases |actions|
  {
    if actions == [] then w else Next(p, Run(p, w, actions[..|actions| - 1]), actions[|actions| - 1])
  }

  // ---- The invariant -------------------------------------------------------------------------

  ghost predicate MemberOk(p: Package, rows: Rows, tx: Tx) {
    tx.txid in rows ==>
      var r := rows[tx.txid].value;
      && Valid(r) && r.txid == tx.txid
      && (r.raw.Some? ==> r.raw.value == tx)
      && (r.broadcast.Some? ==> r.broadcast.value.expiresAt == p.expiry && r.broadcast.value.network == p.network)
      && (!r.observation.Absent? ==> Attempted(rows, tx))
  }

  ghost predicate AttemptedPrefix(p: Package, rows: Rows) {
    forall i, j | 0 <= i < j < |p.txs| && Attempted(rows, p.txs[j]) :: Attempted(rows, p.txs[i])
  }

  ghost predicate CommittedPrefix(p: Package, rows: Rows) {
    forall i, j | 0 <= i < j < |p.txs| && Committed(rows, p.txs[j]) :: Committed(rows, p.txs[i])
  }

  /** A committed member follows a gap only when everything before the gap was attempted and everything after it is committed. */
  ghost predicate AlmostPrefix(p: Package, rows: Rows) {
    forall i, j | 0 <= i < j < |p.txs| && !Committed(rows, p.txs[i]) && Committed(rows, p.txs[j]) :: LoneGap(p, rows, i)
  }

  ghost predicate LoneGap(p: Package, rows: Rows, i: nat)
    requires i < |p.txs|
  {
    && (forall k | 0 <= k < i :: Attempted(rows, p.txs[k]))
    && (forall k | i < k < |p.txs| :: Committed(rows, p.txs[k]))
  }

  ghost predicate FundingCommitted(p: Package, rows: Rows)
    requires |p.txs| > 0
  {
    Committed(rows, p.txs[|p.txs| - 1])
  }

  /** Whatever is still committed was attempted. */
  ghost predicate NothingPending(p: Package, rows: Rows) {
    forall i | 0 <= i < |p.txs| && Committed(rows, p.txs[i]) :: Attempted(rows, p.txs[i])
  }

  ghost predicate RowsInv(p: Package, rows: Rows)
    requires |p.txs| > 0
  {
    && (forall i | 0 <= i < |p.txs| :: MemberOk(p, rows, p.txs[i]))
    && AttemptedPrefix(p, rows)
    && (FundingCommitted(p, rows) ==> AlmostPrefix(p, rows))
    && OutsideOk(p, rows)
  }

  ghost predicate PassInv(p: Package, rows: Rows, pass: Pass)
    requires |p.txs| > 0
  {
    && (forall i | 0 <= i < |p.txs| :: MemberOk(p, pass.start, p.txs[i]))
    && (forall i | 0 <= i < |p.txs| && Attempted(pass.start, p.txs[i]) :: Attempted(rows, p.txs[i]))
    && (forall i | 0 <= i < |p.txs| && p.txs[i].txid in pass.done :: Attempted(rows, p.txs[i]))
    && (pass.now < p.expiry ==> CommittedPrefix(p, pass.start))
    && (pass.now >= p.expiry && FundingCommitted(p, rows) ==> NothingPending(p, rows))
  }

  ghost predicate Inv(p: Package, w: Life)
    requires |p.txs| > 0
  {
    && RowsInv(p, w.rows)
    && (w.clock < p.expiry ==> CommittedPrefix(p, w.rows))
    && (w.pass.Some? ==> w.pass.value.now <= w.clock && PassInv(p, w.rows, w.pass.value))
    && (forall i | 0 <= i < |w.sends| && Member(p, w.sends[i].txid) :: w.sends[i].now < p.expiry)
  }

  // ---- What a write to the rows keeps -----------------------------------------------------------

  /** Every member keeps whether it is committed and whether it was attempted. */
  ghost predicate SameStatus(p: Package, a: Rows, b: Rows) {
    forall i | 0 <= i < |p.txs| ::
      (Committed(a, p.txs[i]) <==> Committed(b, p.txs[i])) && (Attempted(a, p.txs[i]) <==> Attempted(b, p.txs[i]))
  }

  lemma StatusKeeps(p: Package, w: Life, rows: Rows)
    requires |p.txs| > 0 && Inv(p, w) && SameStatus(p, w.rows, rows)
    requires forall i | 0 <= i < |p.txs| :: MemberOk(p, rows, p.txs[i])
    requires OutsideOk(p, rows)
    ensures Inv(p, w.(rows := rows))
  {
    hide Committed; hide Attempted; hide MemberOk; hide OutsideOk;
  }

  lemma OutsideKept(p: Package, a: Rows, b: Rows)
    requires OutsideOk(p, a)
    requires forall id | id in b && !Member(p, id) :: id in a && a[id].value.raw == b[id].value.raw
    requires forall i | 0 <= i < |p.txs| && Attempted(a, p.txs[i]) :: Attempted(b, p.txs[i])
    ensures OutsideOk(p, b)
  {
    hide Attempted;
    forall id, i | id in b && !Member(p, id) && b[id].value.raw.Some? && 0 <= i < |p.txs|
                   && SpendsFrom(b[id].value.raw.value, p.txs[i].txid)
      ensures Attempted(b, p.txs[i])
    {
      assert SpendsFrom(a[id].value.raw.value, p.txs[i].txid);
    }
  }

  /** A write to one member changes no other member's status. */
  lemma OtherMembers(p: Package, rows: Rows, i: nat, r: Record)
    requires WellFormed(p) && i < |p.txs|
    ensures var after := Put(rows, p.txs[i].txid, r);
            forall j | 0 <= j < |p.txs| && j != i :: SameMember(p.txs[j], rows, after)
  {
  }

  /** A write to a member that keeps its status. */
  lemma TouchKeeps(p: Package, w: Life, i: nat, r: Record)
    requires WellFormed(p) && Inv(p, w) && i < |p.txs|
    requires var after := Put(w.rows, p.txs[i].txid, r);
             && MemberOk(p, after, p.txs[i])
             && (Committed(w.rows, p.txs[i]) <==> Committed(after, p.txs[i]))
             && (Attempted(w.rows, p.txs[i]) <==> Attempted(after, p.txs[i]))
    ensures Inv(p, w.(rows := Put(w.rows, p.txs[i].txid, r)))
  {
    var after := Put(w.rows, p.txs[i].txid, r);
    OtherMembers(p, w.rows, i, r);
    forall j | 0 <= j < |p.txs| ensures MemberOk(p, after, p.txs[j]) {
      assert MemberOk(p, w.rows, p.txs[j]);
      if j != i { assert SameMember(p.txs[j], w.rows, after); }
    }
    forall j | 0 <= j < |p.txs|
      ensures Committed(w.rows, p.txs[j]) <==> Committed(after, p.txs[j])
      ensures Attempted(w.rows, p.txs[j]) <==> Attempted(after, p.txs[j])
    {
      if j != i { assert SameMember(p.txs[j], w.rows, after); }
    }
    assert Member(p, p.txs[i].txid);
    OutsideKept(p, w.rows, after);
    StatusKeeps(p, w, after);
  }

  // ---- The steps keep it -------------------------------------------------------------------------

  lemma FinishStep(p: Package, w: Life, i: nat)
    requires WellFormed(p) && Inv(p, w) && i < |p.txs|
    ensures Inv(p, AfterFinishing(w, p.txs[i]))
  {
    var tx := p.txs[i];
    assert MemberOk(p, w.rows, tx);
    if AfterFinishing(w, tx) != w {
      TouchKeeps(p, w, i, Sent(w.rows[tx.txid].value, w.rows[tx.txid].value.broadcast.value.startedAt.value));
    }
  }

  lemma ObserveStep(p: Package, w: Life, i: nat, seen: Option<Seen>, now: nat)
    requires WellFormed(p) && Inv(p, w) && i < |p.txs|
    ensures Inv(p, AfterObserving(w, p.txs[i], seen, now))
  {
    var tx := p.txs[i];
    assert MemberOk(p, w.rows, tx);
    if AfterObserving(w, tx, seen, now) != w {
      TouchKeeps(p, w, i, Reconciled(Some(w.rows[tx.txid].value), tx.txid, seen, now).value);
    }
  }

  lemma OutsideStep(p: Package, w: Life, after: Rows)
    requires WellFormed(p) && Inv(p, w) && SameMembers(p, w.rows, after) && OutsideOk(p, after)
    ensures Inv(p, w.(rows := after))
  {
    forall i | 0 <= i < |p.txs|
      ensures MemberOk(p, after, p.txs[i])
      ensures Committed(w.rows, p.txs[i]) <==> Committed(after, p.txs[i])
      ensures Attempted(w.rows, p.txs[i]) <==> Attempted(after, p.txs[i])
    {
      assert MemberOk(p, w.rows, p.txs[i]) && SameMember(p.txs[i], w.rows, after);
    }
    StatusKeeps(p, w, after);
  }

  /** The submission of member `i` when the one before it was attempted. */
  lemma SubmitMember(p: Package, w: Life, i: nat)
    requires WellFormed(p) && Inv(p, w) && i < |p.txs| && w.pass.Some?
    requires Begin(w.rows, p.network, p.txs[i].txid, w.clock).Submit?
    requires i > 0 ==> Attempted(w.rows, p.txs[i - 1])
    ensures Inv(p, AfterSubmit(p, w, w.pass.value, p.txs[i].txid))
  {
    hide Begin; hide MemberOk; hide IsPublication; hide PassInv; hide AttemptedPrefix; hide CommittedPrefix; hide Started;
    var pass, id := w.pass.value, p.txs[i].txid;
    StartedMember(p, w.rows, p.txs[i], w.clock);
    var r := Started(w.rows[id].value, w.clock);
    var after := Put(w.rows, id, r);
    var w' := AfterSubmit(p, w, pass, id);
    assert w'.rows == after;
    OtherMembers(p, w.rows, i, r);
    forall j | 0 <= j < |p.txs|
      ensures MemberOk(p, after, p.txs[j])
      ensures Committed(w.rows, p.txs[j]) <==> Committed(after, p.txs[j])
      ensures Attempted(after, p.txs[j]) <==> j == i || Attempted(w.rows, p.txs[j])
    {
      if j != i { MemberCarried(p, p.txs[j], w.rows, after); }
    }
    assert Member(p, id);
    OutsideKept(p, w.rows, after);
    SubmitKeeps(p, w, w', i);
  }

  lemma StartedMember(p: Package, rows: Rows, tx: Tx, now: nat)
    requires MemberOk(p, rows, tx) && IsPublication(tx) && Begin(rows, p.network, tx.txid, now).Submit?
    ensures Committed(rows, tx) && now < p.expiry
    ensures var r := Started(rows[tx.txid].value, now);
            var after := Put(rows, tx.txid, r);
            && Begin(rows, p.network, tx.txid, now) == BroadcastJournal.Submit(after, r, rows[tx.txid].revision + 1)
            && MemberOk(p, after, tx) && Attempted(after, tx)
  {
  }

  lemma DroppedMember(p: Package, rows: Rows, tx: Tx, now: nat)
    requires MemberOk(p, rows, tx) && IsPublication(tx)
    requires Begin(rows, p.network, tx.txid, now).Refused? && Begin(rows, p.network, tx.txid, now).rows != rows
    ensures Committed(rows, tx) && now >= p.expiry && !Attempted(rows, tx)
    ensures var r := Dropped(rows[tx.txid].value, now);
            var after := Put(rows, tx.txid, r);
            && Begin(rows, p.network, tx.txid, now) == Refused(after, ApprovalExpired)
            && MemberOk(p, after, tx) && !Committed(after, tx)
  {
  }

  lemma MemberCarried(p: Package, tx: Tx, a: Rows, b: Rows)
    requires SameMember(tx, a, b) && MemberOk(p, a, tx)
    ensures MemberOk(p, b, tx)
    ensures (Committed(a, tx) <==> Committed(b, tx)) && (Attempted(a, tx) <==> Attempted(b, tx))
  {
  }

  lemma SubmitKeeps(p: Package, w: Life, w': Life, i: nat)
    requires WellFormed(p) && Inv(p, w) && i < |p.txs| && w.pass.Some? && w.clock < p.expiry
    requires i > 0 ==> Attempted(w.rows, p.txs[i - 1])
    requires forall j | 0 <= j < |p.txs| :: MemberOk(p, w'.rows, p.txs[j])
    requires forall j | 0 <= j < |p.txs| :: Committed(w.rows, p.txs[j]) <==> Committed(w'.rows, p.txs[j])
    requires forall j | 0 <= j < |p.txs| :: Attempted(w'.rows, p.txs[j]) <==> j == i || Attempted(w.rows, p.txs[j])
    requires OutsideOk(p, w'.rows)
    requires w' == Life(w'.rows, w.clock, Some(w.pass.value.(done := w.pass.value.done + {p.txs[i].txid})),
                        w.sends + [Send(p.txs[i].txid, w.clock)])
    ensures Inv(p, w')
  {
    hide Committed; hide Attempted; hide MemberOk; hide OutsideOk; hide SpendsFrom; hide IsPublication;
    forall a, b | 0 <= a < b < |p.txs| && Attempted(w'.rows, p.txs[b]) ensures Attempted(w'.rows, p.txs[a]) {
      if b == i && a < i - 1 { assert Attempted(w.rows, p.txs[i - 1]); }
    }
    assert PassInv(p, w'.rows, w'.pass.value);
  }

  /** Submitting something outside the package. */
  lemma SubmitOther(p: Package, w: Life, id: nat)
    requires WellFormed(p) && Inv(p, w) && w.pass.Some? && !Member(p, id)
    ensures Inv(p, AfterSubmit(p, w, w.pass.value, id))
  {
    var b := Begin(w.rows, p.network, id, w.clock);
    if b.Observed? {
      hide Inv;
      NotOurs(p, w, id);
    } else {
      BeginElsewhere(p, w.rows, w.clock, id);
      OtherRawKept(p, w.rows, w.clock, id);
      OutsideStep(p, w, b.rows);
      hide Inv;
      if b.Submit? { NotOurs(p, w.(rows := b.rows), id); }
    }
  }

  lemma BeginElsewhere(p: Package, rows: Rows, now: nat, id: nat)
    requires !Member(p, id)
    ensures var b := Begin(rows, p.network, id, now);
            !b.Observed? ==> SameMembers(p, rows, b.rows)
  {
    forall i | 0 <= i < |p.txs| ensures p.txs[i].txid != id { }
  }

  lemma NotOurs(p: Package, w: Life, id: nat)
    requires |p.txs| > 0 && Inv(p, w) && w.pass.Some? && !Member(p, id)
    ensures var pass := w.pass.value.(done := w.pass.value.done + {id});
            && Inv(p, w.(pass := Some(pass)))
            && Inv(p, w.(pass := Some(pass), sends := w.sends + [Send(id, w.clock)]))
  {
    hide Committed; hide Attempted; hide MemberOk; hide OutsideOk;
    forall i | 0 <= i < |p.txs| ensures p.txs[i].txid != id { }
  }

  lemma OtherRawKept(p: Package, rows: Rows, now: nat, id: nat)
    requires OutsideOk(p, rows) && !Member(p, id)
    ensures var b := Begin(rows, p.network, id, now);
            !b.Observed? ==> OutsideOk(p, b.rows)
  {
    var b := Begin(rows, p.network, id, now);
    if !b.Observed? {
      forall i | 0 <= i < |p.txs| && Attempted(rows, p.txs[i]) ensures Attempted(b.rows, p.txs[i]) {
        assert p.txs[i].txid != id;
      }
      forall k, i | k in b.rows && !Member(p, k) && b.rows[k].value.raw.Some? && 0 <= i < |p.txs|
                    && SpendsFrom(b.rows[k].value.raw.value, p.txs[i].txid)
        ensures Attempted(b.rows, p.txs[i])
      {
        assert SpendsFrom(rows[k].value.raw.value, p.txs[i].txid);
      }
    }
  }

  /** A member that is called was committed when the pass began, and so was the one before it. */
  lemma CallableMember(p: Package, w: Life, i: nat)
    requires WellFormed(p) && Inv(p, w) && 0 < i < |p.txs| && w.pass.Some?
    requires w.pass.value.now < p.expiry && Callable(w.pass.value, p.txs[i].txid)
    ensures Attempted(w.rows, p.txs[i - 1])
  {
    var pass := w.pass.value;
    assert MemberOk(p, pass.start, p.txs[i]) && MemberOk(p, pass.start, p.txs[i - 1]);
    assert SpendsFrom(p.txs[i], p.txs[i - 1].txid);
    assert Committed(pass.start, p.txs[i]);
    assert Committed(pass.start, p.txs[i - 1]);
    var q := p.txs[i - 1].txid;
    assert q in InputTxids(pass.start[p.txs[i].txid].value.raw.value.inputs);
  }

  /** The state of a member that a submission drops: pending, past its expiry, and the first one pending if the pass began in time. */
  lemma DropMember(p: Package, w: Life, i: nat)
    requires WellFormed(p) && Inv(p, w) && i < |p.txs| && w.pass.Some? && Callable(w.pass.value, p.txs[i].txid)
    requires var b := Begin(w.rows, p.network, p.txs[i].txid, w.clock);
             b.Refused? && b.rows != w.rows
    ensures var w' := AfterSubmit(p, w, w.pass.value, p.txs[i].txid);
            && Inv(p, w') && w' == w.(rows := w'.rows)
            && (forall j | 0 <= j < |p.txs| :: Committed(w'.rows, p.txs[j]) <==> j != i && Committed(w.rows, p.txs[j]))
            && (forall j | 0 <= j < |p.txs| :: Attempted(w'.rows, p.txs[j]) <==> Attempted(w.rows, p.txs[j]))
    ensures w.clock >= p.expiry && Committed(w.rows, p.txs[i]) && !Attempted(w.rows, p.txs[i])
    ensures FundingCommitted(p, w.rows) ==> forall j | 0 <= j < i :: Attempted(w.rows, p.txs[j])
  {
    if w.pass.value.now < p.expiry && i > 0 { CallableMember(p, w, i); }
    hide Begin; hide MemberOk; hide IsPublication; hide AttemptedPrefix; hide CommittedPrefix; hide AlmostPrefix; hide Dropped;
    hide Callable;
    var pass, id := w.pass.value, p.txs[i].txid;
    DroppedMember(p, w.rows, p.txs[i], w.clock);
    var r := Dropped(w.rows[id].value, w.clock);
    var after := Put(w.rows, id, r);
    assert AfterSubmit(p, w, pass, id) == w.(rows := after);
    OtherMembers(p, w.rows, i, r);
    forall j | 0 <= j < |p.txs|
      ensures MemberOk(p, after, p.txs[j])
      ensures Committed(after, p.txs[j]) <==> j != i && Committed(w.rows, p.txs[j])
      ensures Attempted(after, p.txs[j]) <==> Attempted(w.rows, p.txs[j])
    {
      if j != i { MemberCarried(p, p.txs[j], w.rows, after); }
    }
    assert Member(p, id);
    OutsideKept(p, w.rows, after);
    DropKeeps(p, w, after, i);
  }

  lemma DropKeeps(p: Package, w: Life, after: Rows, i: nat)
    requires WellFormed(p) && Inv(p, w) && i < |p.txs| && w.pass.Some? && w.clock >= p.expiry
    requires Committed(w.rows, p.txs[i]) && !Attempted(w.rows, p.txs[i])
    requires w.pass.value.now < p.expiry && i > 0 ==> Attempted(w.rows, p.txs[i - 1])
    requires forall j | 0 <= j < |p.txs| :: MemberOk(p, after, p.txs[j])
    requires forall j | 0 <= j < |p.txs| :: Committed(after, p.txs[j]) <==> j != i && Committed(w.rows, p.txs[j])
    requires forall j | 0 <= j < |p.txs| :: Attempted(after, p.txs[j]) <==> Attempted(w.rows, p.txs[j])
    requires OutsideOk(p, after)
    ensures Inv(p, w.(rows := after))
    ensures FundingCommitted(p, w.rows) ==> forall j | 0 <= j < i :: Attempted(w.rows, p.txs[j])
  {
    hide Committed; hide Attempted; hide MemberOk; hide OutsideOk; hide WellFormed; hide AlmostPrefix; hide CommittedPrefix;
    hide AttemptedPrefix;
    PackageSize(p);
    DropLeavesGap(p, w.rows, after, w.pass.value, i);
    assert AttemptedPrefix(p, after) by { SameAttempted(p, w.rows, after); }
  }

  lemma SameAttempted(p: Package, a: Rows, b: Rows)
    requires AttemptedPrefix(p, a) && forall j | 0 <= j < |p.txs| :: Attempted(b, p.txs[j]) <==> Attempted(a, p.txs[j])
    ensures AttemptedPrefix(p, b)
  {
    hide Attempted;
  }

  lemma DropLeavesGap(p: Package, rows: Rows, after: Rows, pass: Pass, i: nat)
    requires i < |p.txs| && RowsInv(p, rows) && PassInv(p, rows, pass)
    requires Committed(rows, p.txs[i]) && !Attempted(rows, p.txs[i])
    requires pass.now < p.expiry && i > 0 ==> Attempted(rows, p.txs[i - 1])
    requires forall j | 0 <= j < |p.txs| :: Committed(after, p.txs[j]) <==> j != i && Committed(rows, p.txs[j])
    requires forall j | 0 <= j < |p.txs| :: Attempted(after, p.txs[j]) <==> Attempted(rows, p.txs[j])
    ensures FundingCommitted(p, rows) ==> forall j | 0 <= j < i :: Attempted(rows, p.txs[j])
    ensures FundingCommitted(p, after) ==> AlmostPrefix(p, after) && pass.now < p.expiry
  {
    hide Committed; hide Attempted; hide MemberOk; hide OutsideOk; hide AlmostPrefix; hide CommittedPrefix; hide AttemptedPrefix;
    if FundingCommitted(p, rows) {
      assert pass.now < p.expiry;
      FirstPending(p, rows, i);
      OnlyGap(p, after, i);
    }
  }

  lemma OnlyGap(p: Package, rows: Rows, i: nat)
    requires i < |p.txs| && LoneGap(p, rows, i)
    ensures AlmostPrefix(p, rows)
  {
    assert forall j | 0 <= j < |p.txs| && Attempted(rows, p.txs[j]) :: Committed(rows, p.txs[j]);
    hide Committed; hide Attempted;
    forall k, j | 0 <= k < j < |p.txs| && !Committed(rows, p.txs[k]) && Committed(rows, p.txs[j]) ensures LoneGap(p, rows, k) {
      assert k == i;
    }
  }

  /** With the funding committed, a pending member behind an attempted one is the first that was not attempted, and none is missing. */
  lemma FirstPending(p: Package, rows: Rows, i: nat)
    requires i < |p.txs| && RowsInv(p, rows) && FundingCommitted(p, rows)
    requires Committed(rows, p.txs[i]) && !Attempted(rows, p.txs[i]) && (i > 0 ==> Attempted(rows, p.txs[i - 1]))
    ensures forall j | 0 <= j < i :: Attempted(rows, p.txs[j])
    ensures forall j | 0 <= j < |p.txs| :: Committed(rows, p.txs[j])
  {
    assert forall j | 0 <= j < |p.txs| && Attempted(rows, p.txs[j]) :: Committed(rows, p.txs[j]);
    hide Committed; hide Attempted; hide MemberOk; hide OutsideOk;
  }

  /** What the outcome of a submission says of a member. */
  lemma BeginMember(p: Package, rows: Rows, tx: Tx, now: nat)
    requires MemberOk(p, rows, tx) && IsPublication(tx)
    ensures var b := Begin(rows, p.network, tx.txid, now);
            && (b.Submit? ==> now < p.expiry)
            && (b.Observed? ==> Attempted(rows, tx))
  {
  }

  lemma PassIsEarlier(p: Package, w: Life)
    requires |p.txs| > 0 && Inv(p, w) && w.pass.Some?
    ensures w.pass.value.now <= w.clock
  {
  }

  lemma SubmitStep(p: Package, w: Life, id: nat)
    requires WellFormed(p) && Inv(p, w) && w.pass.Some? && Callable(w.pass.value, id)
    ensures Inv(p, AfterSubmit(p, w, w.pass.value, id))
  {
    if Member(p, id) {
      var i :| 0 <= i < |p.txs| && p.txs[i].txid == id;
      BeginMember(p, w.rows, p.txs[i], w.clock);
      hide Inv; hide WellFormed; hide Callable; hide Begin; hide IsPublication;
      PackageSize(p);
      var b := Begin(w.rows, p.network, id, w.clock);
      if b.Submit? {
        assert w.pass.value.now < p.expiry by { PassIsEarlier(p, w); }
        if i > 0 { CallableMember(p, w, i); }
        SubmitMember(p, w, i);
      } else if b.Observed? {
        ObservedKeeps(p, w, i);
      } else if b.rows != w.rows {
        DropMember(p, w, i);
      }
    } else {
      SubmitOther(p, w, id);
    }
  }

  lemma ObservedKeeps(p: Package, w: Life, i: nat)
    requires WellFormed(p) && Inv(p, w) && i < |p.txs| && w.pass.Some? && Attempted(w.rows, p.txs[i])
    ensures Inv(p, w.(pass := Some(w.pass.value.(done := w.pass.value.done + {p.txs[i].txid}))))
  {
    hide Committed; hide Attempted; hide MemberOk; hide OutsideOk; hide SpendsFrom; hide IsPublication;
  }

  lemma TimePasses(p: Package, w: Life, now: nat)
    requires |p.txs| > 0 && Inv(p, w) && w.clock <= now
    ensures Inv(p, w.(clock := now))
  {
    hide RowsInv; hide CommittedPrefix; hide PassInv;
  }

  // ---- Commit -----------------------------------------------------------------------------------------

  /** One member more, in order. */
  lemma CommitMember(p: Package, w: Life, k: nat, now: nat, test: CommittedInputs)
    requires WellFormed(p) && Inv(p, w) && k < |p.txs| && w.clock == now
    requires forall j | 0 <= j < k :: Committed(w.rows, p.txs[j])
    ensures var outcome := Approve(w.rows, p.txs[k], p.approvals[k], Revision(w.rows, p.txs[k].txid), now, test);
            outcome.Ok? ==> Inv(p, w.(rows := outcome.value)) && forall j | 0 <= j <= k :: Committed(outcome.value, p.txs[j])
  {
    var tx, a := p.txs[k], p.approvals[k];
    var outcome := Approve(w.rows, tx, a, Revision(w.rows, tx.txid), now, test);
    assert MemberOk(p, w.rows, tx);
    if outcome.Ok? && outcome.value != w.rows {
      var r := Approved(Target(w.rows, tx, a, now), tx, a, now);
      var after := Put(w.rows, tx.txid, r);
      assert outcome.value == after;
      OtherMembers(p, w.rows, k, r);
      forall j | 0 <= j < |p.txs|
        ensures MemberOk(p, after, p.txs[j])
        ensures Committed(after, p.txs[j]) <==> j == k || Committed(w.rows, p.txs[j])
        ensures Attempted(after, p.txs[j]) <==> Attempted(w.rows, p.txs[j])
      {
        assert MemberOk(p, w.rows, p.txs[j]);
        if j != k { assert SameMember(p.txs[j], w.rows, after); }
      }
      assert Member(p, tx.txid);
      OutsideKept(p, w.rows, after);
      CommitKeeps(p, w, after, k);
    }
  }

  lemma CommitKeeps(p: Package, w: Life, after: Rows, k: nat)
    requires WellFormed(p) && Inv(p, w) && k < |p.txs| && w.clock < p.expiry
    requires forall j | 0 <= j < k :: Committed(w.rows, p.txs[j])
    requires forall j | 0 <= j < |p.txs| :: MemberOk(p, after, p.txs[j])
    requires forall j | 0 <= j < |p.txs| :: Committed(after, p.txs[j]) <==> j == k || Committed(w.rows, p.txs[j])
    requires forall j | 0 <= j < |p.txs| :: Attempted(after, p.txs[j]) <==> Attempted(w.rows, p.txs[j])
    requires OutsideOk(p, after)
    ensures Inv(p, w.(rows := after))
  {
    hide Committed; hide Attempted; hide MemberOk; hide OutsideOk; hide SpendsFrom; hide IsPublication;
  }

  lemma {:induction false} CommitLoop(p: Package, w: Life, k: nat, now: nat, tests: seq<CommittedInputs>)
    requires WellFormed(p) && Inv(p, w) && k <= |p.txs| && k <= |tests| && w.clock == now
    ensures var done := Committing(p, w.rows, k, now, tests);
            Inv(p, w.(rows := done.rows)) && (done.ok ==> forall j | 0 <= j < k :: Committed(done.rows, p.txs[j]))
    decreases k
  {
    hide Inv; hide WellFormed; hide Approve; hide Committed;
    PackageSize(p);
    if k != 0 {
      CommitLoop(p, w, k - 1, now, tests);
      var before := Committing(p, w.rows, k - 1, now, tests);
      if before.ok {
        CommitMember(p, w.(rows := before.rows), k - 1, now, tests[k - 1]);
      }
    }
  }

  lemma CommitStep(p: Package, w: Life, upTo: nat, now: nat, tests: seq<CommittedInputs>)
    requires WellFormed(p) && Inv(p, w) && upTo <= |p.txs| && upTo <= |tests| && w.clock <= now
    ensures Inv(p, w.(rows := Committing(p, w.rows, upTo, now, tests).rows, clock := now))
  {
    var later := w.(clock := now);
    TimePasses(p, w, now);
    hide Inv;
    CommitLoop(p, later, upTo, now, tests);
  }

  // ---- Expiry --------------------------------------------------------------------------------------------

  lemma FinalIsFunding(p: Package, rows: Rows, now: nat, i: nat)
    requires WellFormed(p) && i < |p.txs| && MemberOk(p, rows, p.txs[i]) && ExpiredFinal(rows, now, p.txs[i].txid)
    ensures FundingCommitted(p, rows) && now >= p.expiry
  {
    hide Valid;
  }

  lemma SpentOutside(p: Package, rows: Rows, q: nat, i: nat)
    requires OutsideOk(p, rows) && i < |p.txs| && !Member(p, q) && Untouched(rows, q)
    requires p.txs[i].txid in RawInputs(rows, q)
    ensures Attempted(rows, p.txs[i])
  {
    assert SpendsFrom(rows[q].value.raw.value, p.txs[i].txid);
  }

  /** A path that reaches a member came through the funding transaction of the package. */
  lemma {:induction false} PathInPackage(p: Package, rows: Rows, now: nat, path: seq<nat>, i: nat)
    requires WellFormed(p) && RowsInv(p, rows) && DoomPath(rows, now, path)
    requires i < |p.txs| && path[|path| - 1] == p.txs[i].txid
    ensures FundingCommitted(p, rows) && now >= p.expiry
    decreases |path|
  {
    hide WellFormed; hide MemberOk; hide OutsideOk; hide AttemptedPrefix; hide CommittedPrefix; hide RawInputs; hide ExpiredFinal;
    var n := |path|;
    assert Untouched(rows, path[n - 1]);
    if n == 1 {
      FinalIsFunding(p, rows, now, i);
    } else {
      var q := path[n - 2];
      assert path[n - 2 + 1] in RawInputs(rows, q) && Untouched(rows, q);
      if Member(p, q) {
        var j :| 0 <= j < |p.txs| && p.txs[j].txid == q;
        var shorter := path[..n - 1];
        forall k | 0 <= k < |shorter| - 1 ensures shorter[k + 1] in RawInputs(rows, shorter[k]) {
          assert path[k + 1] in RawInputs(rows, path[k]);
        }
        PathInPackage(p, rows, now, shorter, j);
      } else {
        SpentOutside(p, rows, q, i);
      }
    }
  }

  /** With the funding committed, everything after a pending member is committed too. */
  lemma PendingSuffix(p: Package, rows: Rows, i: nat, j: nat)
    requires |p.txs| > 0 && RowsInv(p, rows) && FundingCommitted(p, rows) && i < j < |p.txs|
    requires Committed(rows, p.txs[i]) && !Attempted(rows, p.txs[i])
    ensures Committed(rows, p.txs[j]) && !Attempted(rows, p.txs[j])
  {
    hide Committed; hide Attempted; hide MemberOk; hide OutsideOk;
  }

  /** From the funding transaction back to any pending member. */
  lemma {:induction false} SuffixDoomed(p: Package, rows: Rows, now: nat, i: nat)
    requires WellFormed(p) && RowsInv(p, rows) && FundingCommitted(p, rows) && now >= p.expiry
    requires i < |p.txs| && Committed(rows, p.txs[i]) && !Attempted(rows, p.txs[i])
    ensures Doomed(rows, now, p.txs[i].txid)
    decreases |p.txs| - i
  {
    assert MemberOk(p, rows, p.txs[i]);
    assert Untouched(rows, p.txs[i].txid);
    if i == |p.txs| - 1 {
      DoomedFinal(rows, now, p.txs[i].txid);
    } else {
      PendingSuffix(p, rows, i, i + 1);
      SuffixDoomed(p, rows, now, i + 1);
      assert MemberOk(p, rows, p.txs[i + 1]);
      assert SpendsFrom(p.txs[i + 1], p.txs[i].txid);
      hide Doomed;
      DoomedIsUntouched(rows, now, p.txs[i + 1].txid);
      DoomedParent(rows, now, p.txs[i + 1].txid, p.txs[i].txid);
    }
  }

  /**
   Expiry of a package with its funding committed drops exactly the members still
   pending, even after a submission has already dropped one, and leaves every
   other member as it was. A package whose funding is not committed, or that has
   not expired, loses nothing.
   */
  lemma AbandonClearsSuffix(p: Package, rows: Rows, now: nat, after: Rows, i: nat)
    requires WellFormed(p) && RowsInv(p, rows) && Abandoned(rows, now, after) && i < |p.txs|
    ensures FundingCommitted(p, rows) && now >= p.expiry ==>
              (Committed(after, p.txs[i]) <==> Attempted(rows, p.txs[i]))
    ensures (FundingCommitted(p, rows) && now >= p.expiry && Committed(rows, p.txs[i]) ==> Attempted(rows, p.txs[i])) ==>
              SameMember(p.txs[i], rows, after)
    ensures Attempted(after, p.txs[i]) <==> Attempted(rows, p.txs[i])
    ensures MemberOk(p, after, p.txs[i])
  {
    var id := p.txs[i].txid;
    assert MemberOk(p, rows, p.txs[i]);
    if FundingCommitted(p, rows) && now >= p.expiry && Committed(rows, p.txs[i]) && !Attempted(rows, p.txs[i]) {
      SuffixDoomed(p, rows, now, i);
      DoomedIsUntouched(rows, now, id);
    } else {
      if Doomed(rows, now, id) {
        var path :| DoomPath(rows, now, path) && path[|path| - 1] == id;
        PathInPackage(p, rows, now, path, i);
        DoomedIsUntouched(rows, now, id);
      }
      hide Doomed;
      assert id in rows ==> after[id] == rows[id];
    }
  }

  lemma StartStep(p: Package, w: Life, now: nat, after: Rows)
    requires WellFormed(p) && Inv(p, w) && w.clock <= now && Abandoned(w.rows, now, after)
    ensures Inv(p, w.(rows := after, clock := now, pass := Some(Pass(now, after, {}))))
  {
    forall i | 0 <= i < |p.txs|
      ensures MemberOk(p, after, p.txs[i])
      ensures Attempted(after, p.txs[i]) <==> Attempted(w.rows, p.txs[i])
      ensures FundingCommitted(p, w.rows) && now >= p.expiry ==> (Committed(after, p.txs[i]) <==> Attempted(w.rows, p.txs[i]))
      ensures !(FundingCommitted(p, w.rows) && now >= p.expiry) ==> (Committed(after, p.txs[i]) <==> Committed(w.rows, p.txs[i]))
    {
      AbandonClearsSuffix(p, w.rows, now, after, i);
      if !(FundingCommitted(p, w.rows) && now >= p.expiry) { assert SameMember(p.txs[i], w.rows, after); }
    }
    DroppedOutside(p, w.rows, now, after);
    StartKeeps(p, w, now, after);
  }

  lemma DroppedOutside(p: Package, rows: Rows, now: nat, after: Rows)
    requires OutsideOk(p, rows) && Abandoned(rows, now, after)
    requires forall i | 0 <= i < |p.txs| :: Attempted(after, p.txs[i]) <==> Attempted(rows, p.txs[i])
    ensures OutsideOk(p, after)
  {
    hide Doomed; hide Attempted;
    forall k, i | k in after && !Member(p, k) && after[k].value.raw.Some? && 0 <= i < |p.txs|
                  && SpendsFrom(after[k].value.raw.value, p.txs[i].txid)
      ensures Attempted(after, p.txs[i])
    {
      assert after[k] == DropRow(rows, now, k);
      assert SpendsFrom(rows[k].value.raw.value, p.txs[i].txid);
    }
  }

  lemma StartKeeps(p: Package, w: Life, now: nat, after: Rows)
    requires WellFormed(p) && Inv(p, w) && w.clock <= now && OutsideOk(p, after)
    requires forall i | 0 <= i < |p.txs| :: MemberOk(p, after, p.txs[i])
    requires forall i | 0 <= i < |p.txs| :: Attempted(after, p.txs[i]) <==> Attempted(w.rows, p.txs[i])
    requires forall i | 0 <= i < |p.txs| && Attempted(after, p.txs[i]) :: Committed(after, p.txs[i])
    requires FundingCommitted(p, w.rows) && now >= p.expiry ==>
               forall i | 0 <= i < |p.txs| :: Committed(after, p.txs[i]) <==> Attempted(w.rows, p.txs[i])
    requires !(FundingCommitted(p, w.rows) && now >= p.expiry) ==>
               forall i | 0 <= i < |p.txs| :: Committed(after, p.txs[i]) <==> Committed(w.rows, p.txs[i])
    ensures Inv(p, w.(rows := after, clock := now, pass := Some(Pass(now, after, {}))))
  {
    hide Committed; hide Attempted; hide MemberOk; hide OutsideOk; hide SpendsFrom; hide IsPublication;
    assert RowsInv(p, after);
    assert PassInv(p, after, Pass(now, after, {}));
  }

  // ---- Whole runs --------------------------------------------------------------------------------------------

  lemma StepKeeps(p: Package, w: Life, a: Action)
    requires WellFormed(p) && Inv(p, w)
    ensures Inv(p, Next(p, w, a))
  {
    hide Inv; hide WellFormed; hide Committing; hide AfterSubmit; hide AfterFinishing; hide AfterObserving;
    hide Abandoned; hide Callable; hide OutsideOk; hide SameMembers;
    assert |p.txs| == |p.approvals| > 0 by { PackageSize(p); }
    match a
    case Commit(now, upTo, tests) =>
      if upTo <= |p.txs| && upTo <= |tests| && w.clock <= now { CommitStep(p, w, upTo, now, tests); }
    case StartPass(now, after) =>
      if w.clock <= now && Abandoned(w.rows, now, after) { StartStep(p, w, now, after); }
    case Submit(id, now) =>
      if w.clock <= now && w.pass.Some? && Callable(w.pass.value, id) {
        TimePasses(p, w, now);
        SubmitStep(p, w.(clock := now), id);
      }
    case Finish(i) => if i < |p.txs| { FinishStep(p, w, i); }
    case Observe(i, seen, now) => if i < |p.txs| { ObserveStep(p, w, i, seen, now); }
    case Outside(after) => if SameMembers(p, w.rows, after) && OutsideOk(p, after) { OutsideStep(p, w, after); }
  }

  lemma PackageSize(p: Package)
    requires WellFormed(p)
    ensures |p.txs| == |p.approvals| > 0
  {
  }

  lemma {:induction false} RunKeeps(p: Package, w: Life, actions: seq<Action>)
    requires WellFormed(p) && Inv(p, w)
    ensures Inv(p, Run(p, w, actions))
    decreases |actions|
  {
    hide Inv; hide Next; hide WellFormed;
    if actions != [] {
      RunKeeps(p, w, actions[..|actions| - 1]);
      StepKeeps(p, Run(p, w, actions[..|actions| - 1]), actions[|actions| - 1]);
    }
  }

  /**
   In every run of commits stopped anywhere, resume passes, observations and
   expiry: the attempted members are a prefix of the package, the committed ones
   are a prefix until expiry, and no member is submitted at or after its expiry.
   */
  lemma PackageLife(p: Package, rows: Rows, actions: seq<Action>)
    requires WellFormed(p) && OutsideOk(p, rows) && forall i | 0 <= i < |p.txs| :: p.txs[i].txid !in rows
    ensures var w := Run(p, Life(rows, 0, None, []), actions);
            && AttemptedPrefix(p, w.rows)
            && (w.clock < p.expiry ==> CommittedPrefix(p, w.rows))
            && (forall i | 0 <= i < |w.sends| && Member(p, w.sends[i].txid) :: w.sends[i].now < p.expiry)
  {
    var start := Life(rows, 0, None, []);
    assert Inv(p, start);
    RunKeeps(p, start, actions);
    hide Run;
  }

  /** While abandonment fails, no resume pass starts. */
  lemma NoPassWhileBlocked(p: Package, w: Life, now: nat, after: Rows)
    requires !OnlyPublications(w.rows, now)
    ensures Next(p, w, StartPass(now, after)) == w
  {
  }

  // ---- The passes of this model are the passes of the order ---------------------------------------------------

  ghost predicate ListsRows(rows: Rows, records: seq<Record>) {
    && (forall k | 0 <= k < |records| :: records[k].txid in rows && rows[records[k].txid].value == records[k])
    && (forall id | id in rows :: rows[id].value.txid == id && rows[id].value in records)
  }

  /** Every submission a resume pass makes is one this model allows at that point. */
  lemma PassIsAllowed(start: Rows, records: seq<Record>, replies: map<nat, Reply>, calls: seq<Call>, i: nat, now: nat)
    requires ListsRows(start, records)
    requires GoodPass(ResumableParents(records), replies, calls) && i < |calls|
    requires Free(ResumableParents(records), Exhausted(records), calls[i].txid)
    ensures Callable(Pass(now, start, set c | c in calls[..i] && c.reply == Receipt :: c.txid), calls[i].txid)
  {
    hide Blocked;
    var m, id := ResumableParents(records), calls[i].txid;
    var done := set c | c in calls[..i] && c.reply == Receipt :: c.txid;
    assert ParentsSucceeded(m, calls, i);
    forall q | q in m ensures q in start && Resumable(start[q].value) && m[q] == InputTxids(start[q].value.raw.value.inputs) {
    }
    forall q | q in m[id] && q in start ensures !Spent(start[q].value) && (Resumable(start[q].value) ==> q in done) {
      var k :| 0 <= k < |records| && records[k] == start[q].value;
      if Resumable(start[q].value) {
        assert q in m;
        assert Call(q, Receipt) in calls[..i];
      }
      if Spent(start[q].value) {
        assert q !in m;
        SpentParentBlocks(m, Exhausted(records), id, q);
      }
    }
  }

  lemma SpentParentBlocks(m: Parents, exhausted: set<nat>, id: nat, q: nat)
    requires id in m && q in m[id] && q in exhausted
    ensures Blocked(m, exhausted, id)
  {
    assert ParentPath(m, [id, q]);
  }
}
