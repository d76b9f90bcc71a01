/**
 When the committed members of a recovery package are a prefix of it: exactly
 which step breaks that, what is left then, and what restores it.
 */
module BroadcastPrefix {
  import opened RecordStore
  import opened Broadcast
  import opened BroadcastOrder
  import Journal = BroadcastJournal
  import opened BroadcastAbandon
  import opened BroadcastPackage

  // ---- What each step does to the committed members ---------------------------------------------

  lemma SameStatusPrefix(p: Package, a: Rows, b: Rows)
    requires SameStatus(p, a, b)
    ensures CommittedPrefix(p, a) <==> CommittedPrefix(p, b)
  {
    hide Committed; hide Attempted;
    forall i | 0 <= i < |p.txs| ensures Committed(a, p.txs[i]) <==> Committed(b, p.txs[i]) { }
  }

  lemma FinishStatus(p: Package, w: Life, i: nat)
    requires WellFormed(p) && i < |p.txs|
    ensures SameStatus(p, w.rows, AfterFinishing(w, p.txs[i]).rows)
  {
  }

  lemma ObserveStatus(p: Package, w: Life, i: nat, seen: Option<Journal.Seen>, now: nat)
    requires WellFormed(p) && i < |p.txs| && MemberOk(p, w.rows, p.txs[i])
    ensures SameStatus(p, w.rows, AfterObserving(w, p.txs[i], seen, now).rows)
  {
  }

  lemma OutsideStatus(p: Package, a: Rows, b: Rows)
    requires SameMembers(p, a, b)
    ensures SameStatus(p, a, b)
  {
    forall i | 0 <= i < |p.txs|
      ensures (Committed(a, p.txs[i]) <==> Committed(b, p.txs[i])) && (Attempted(a, p.txs[i]) <==> Attempted(b, p.txs[i]))
    {
      assert SameMember(p.txs[i], a, b);
    }
  }

  /** One accepted approval commits exactly its member. */
  lemma ApproveCommits(p: Package, rows: Rows, k: nat, now: nat, test: Journal.CommittedInputs)
    requires WellFormed(p) && k < |p.txs|
    ensures var outcome := Journal.Approve(rows, p.txs[k], p.approvals[k], Revision(rows, p.txs[k].txid), now, test);
            outcome.Ok? ==> forall j | 0 <= j < |p.txs| :: Committed(outcome.value, p.txs[j]) <==> j == k || Committed(rows, p.txs[j])
  {
    hide Valid;
  }

  /** Commits go in order, so that they extend a prefix. */
  lemma {:induction false} CommitPrefix(p: Package, rows: Rows, k: nat, now: nat, tests: seq<Journal.CommittedInputs>)
    requires WellFormed(p) && CommittedPrefix(p, rows) && k <= |p.txs| && k <= |tests|
    ensures var done := Committing(p, rows, k, now, tests);
            CommittedPrefix(p, done.rows) && (done.ok ==> forall j | 0 <= j < k :: Committed(done.rows, p.txs[j]))
    decreases k
  {
    if k != 0 {
      CommitPrefix(p, rows, k - 1, now, tests);
      var before := Committing(p, rows, k - 1, now, tests);
      if before.ok {
        ApproveCommits(p, before.rows, k - 1, now, tests[k - 1]);
        hide WellFormed; hide Journal.Approve; hide Committed;
      }
    }
  }

  /** After expiry no approval of a member is accepted. */
  lemma {:induction false} CommitExpired(p: Package, rows: Rows, k: nat, now: nat, tests: seq<Journal.CommittedInputs>)
    requires WellFormed(p) && k <= |p.txs| && k <= |tests| && now >= p.expiry
    ensures Committing(p, rows, k, now, tests).rows == rows
    decreases k
  {
    if k != 0 { CommitExpired(p, rows, k - 1, now, tests); }
  }

  /** A commit drops nothing. */
  lemma {:induction false} CommitGrows(p: Package, rows: Rows, k: nat, now: nat, tests: seq<Journal.CommittedInputs>, i: nat)
    requires WellFormed(p) && k <= |p.txs| && k <= |tests| && i < |p.txs| && Committed(rows, p.txs[i])
    ensures Committed(Committing(p, rows, k, now, tests).rows, p.txs[i])
    decreases k
  {
    if k != 0 { CommitGrows(p, rows, k - 1, now, tests, i); }
  }

  /** A pass that begins at or after expiry with the funding committed leaves exactly the attempted members. */
  lemma StartClears(p: Package, rows: Rows, now: nat, after: Rows)
    requires WellFormed(p) && RowsInv(p, rows) && Abandoned(rows, now, after)
    ensures FundingCommitted(p, rows) && now >= p.expiry ==>
              NothingPending(p, after) && CommittedPrefix(p, after)
    ensures !(FundingCommitted(p, rows) && now >= p.expiry) ==> SameStatus(p, rows, after)
  {
    forall i | 0 <= i < |p.txs|
      ensures Attempted(after, p.txs[i]) <==> Attempted(rows, p.txs[i])
      ensures FundingCommitted(p, rows) && now >= p.expiry ==> (Committed(after, p.txs[i]) <==> Attempted(rows, p.txs[i]))
      ensures !(FundingCommitted(p, rows) && now >= p.expiry) ==> SameMember(p.txs[i], rows, after)
    {
      hide WellFormed; hide RowsInv; hide Abandoned; hide MemberOk;
      PackageSize(p);
      AbandonClearsSuffix(p, rows, now, after, i);
    }
  }

  /** A submission that drops no member commits and attempts at least what there was. */
  lemma SubmitGrows(p: Package, w: Life, id: nat)
    requires w.pass.Some?
    requires var b := Journal.Begin(w.rows, p.network, id, w.clock);
             Member(p, id) && b.Refused? ==> b.rows == w.rows
    ensures var w' := AfterSubmit(p, w, w.pass.value, id);
            forall j | 0 <= j < |p.txs| ::
              && (Committed(w.rows, p.txs[j]) <==> Committed(w'.rows, p.txs[j]))
              && (Attempted(w.rows, p.txs[j]) ==> Attempted(w'.rows, p.txs[j]))
  {
    hide Valid; hide IsPublication;
    var w' := AfterSubmit(p, w, w.pass.value, id);
    forall j | 0 <= j < |p.txs|
      ensures Committed(w.rows, p.txs[j]) <==> Committed(w'.rows, p.txs[j])
      ensures Attempted(w.rows, p.txs[j]) ==> Attempted(w'.rows, p.txs[j])
    {
      if p.txs[j].txid == id { assert Member(p, id); }
    }
  }

  /** A submission drops a member exactly when it is pending and its expiry has come. */
  lemma DropsWhen(p: Package, rows: Rows, tx: Tx, now: nat)
    requires MemberOk(p, rows, tx) && IsPublication(tx)
    ensures var b := Journal.Begin(rows, p.network, tx.txid, now);
            b.Refused? && b.rows != rows <==> Committed(rows, tx) && !Attempted(rows, tx) && now >= p.expiry
  {
    if Committed(rows, tx) && !Attempted(rows, tx) && now >= p.expiry {
      var after := Journal.Put(rows, tx.txid, Journal.Dropped(rows[tx.txid].value, now));
      assert after[tx.txid].revision != rows[tx.txid].revision;
    }
  }

  // ---- Exactly which step breaks the prefix -----------------------------------------------------------

  /** A submission reaches an expired pending member whose successor is committed. */
  ghost predicate BreaksAt(p: Package, w: Life, a: Action, i: nat)
    requires i < |p.txs|
  {
    && a.Submit? && w.clock <= a.now && w.pass.Some? && Callable(w.pass.value, a.txid)
    && a.txid == p.txs[i].txid && a.now >= p.expiry
    && Committed(w.rows, p.txs[i]) && !Attempted(w.rows, p.txs[i])
    && i + 1 < |p.txs| && Committed(w.rows, p.txs[i + 1])
  }

  ghost predicate Breaks(p: Package, w: Life, a: Action) {
    exists i | 0 <= i < |p.txs| :: BreaksAt(p, w, a, i)
  }

  /** Dropping an expired member keeps the prefix if and only if its successor is not committed. */
  lemma DropKeepsPrefixIff(p: Package, w: Life, i: nat)
    requires WellFormed(p) && Inv(p, w) && CommittedPrefix(p, w.rows) && i < |p.txs| && w.pass.Some?
    requires Callable(w.pass.value, p.txs[i].txid)
    requires var b := Journal.Begin(w.rows, p.network, p.txs[i].txid, w.clock);
             b.Refused? && b.rows != w.rows
    ensures CommittedPrefix(p, AfterSubmit(p, w, w.pass.value, p.txs[i].txid).rows)
            <==> (i + 1 < |p.txs| ==> !Committed(w.rows, p.txs[i + 1]))
  {
    DropMember(p, w, i);
    hide Inv; hide WellFormed; hide Committed; hide AfterSubmit; hide Callable; hide Journal.Begin;
  }

  lemma SubmitPrefixIff(p: Package, w: Life, id: nat, now: nat)
    requires WellFormed(p) && Inv(p, w) && CommittedPrefix(p, w.rows) && w.clock == now
    requires w.pass.Some? && Callable(w.pass.value, id)
    ensures CommittedPrefix(p, AfterSubmit(p, w, w.pass.value, id).rows) <==> !Breaks(p, w, Action.Submit(id, now))
  {
    var b := Journal.Begin(w.rows, p.network, id, now);
    if i :| 0 <= i < |p.txs| && p.txs[i].txid == id {
      DropsWhen(p, w.rows, p.txs[i], now);
      forall j | 0 <= j < |p.txs| && p.txs[j].txid == id ensures j == i { }
      if b.Refused? && b.rows != w.rows {
        DropKeepsPrefixIff(p, w, i);
        hide Inv; hide WellFormed; hide Committed; hide AfterSubmit; hide Callable; hide Journal.Begin; hide CommittedPrefix;
        assert Breaks(p, w, Action.Submit(id, now)) <==> BreaksAt(p, w, Action.Submit(id, now), i);
      } else {
        hide Inv; hide WellFormed; hide AfterSubmit; hide Callable; hide Journal.Begin;
        SubmitGrows(p, w, id);
        hide Committed; hide Attempted;
      }
    } else {
      assert !Member(p, id);
      SubmitGrows(p, w, id);
      hide Inv; hide WellFormed; hide AfterSubmit; hide Callable; hide Journal.Begin; hide Committed; hide Attempted;
    }
  }

  /**
   One step keeps the committed members a prefix if and only if it is not the
   submission of an expired pending member whose successor is committed.
   */
  lemma StepPrefixIff(p: Package, w: Life, a: Action)
    requires WellFormed(p) && Inv(p, w) && CommittedPrefix(p, w.rows)
    ensures CommittedPrefix(p, Next(p, w, a).rows) <==> !Breaks(p, w, a)
  {
    PackageSize(p);
    hide CommittedPrefix; hide Committing; hide AfterSubmit; hide AfterFinishing; hide AfterObserving; hide WellFormed;
    hide Abandoned; hide Callable; hide OutsideOk; hide SameMembers; hide SameStatus; hide MemberOk; hide OnlyPublications;
    match a
    case Commit(now, upTo, tests) =>
      if upTo <= |p.txs| && upTo <= |tests| && w.clock <= now { CommitPrefix(p, w.rows, upTo, now, tests); }
    case StartPass(now, after) =>
      if w.clock <= now && Abandoned(w.rows, now, after) {
        StartClears(p, w.rows, now, after);
        if !(FundingCommitted(p, w.rows) && now >= p.expiry) { SameStatusPrefix(p, w.rows, after); }
      }
    case Submit(id, now) =>
      if w.clock <= now && w.pass.Some? && Callable(w.pass.value, id) {
        TimePasses(p, w, now);
        SubmitPrefixIff(p, w.(clock := now), id, now);
        SameBreaks(p, w, id, now);
      }
    case Finish(i) =>
      if i < |p.txs| { FinishStatus(p, w, i); SameStatusPrefix(p, w.rows, AfterFinishing(w, p.txs[i]).rows); }
    case Observe(i, seen, now) =>
      if i < |p.txs| {
        ObserveStatus(p, w, i, seen, now);
        SameStatusPrefix(p, w.rows, AfterObserving(w, p.txs[i], seen, now).rows);
      }
    case Outside(after) =>
      if SameMembers(p, w.rows, after) { OutsideStatus(p, w.rows, after); SameStatusPrefix(p, w.rows, after); }
  }

  lemma SameBreaks(p: Package, w: Life, id: nat, now: nat)
    requires w.clock <= now
    ensures Breaks(p, w, Action.Submit(id, now)) <==> Breaks(p, w.(clock := now), Action.Submit(id, now))
  {
    hide Callable; hide Committed; hide Attempted;
    forall i | 0 <= i < |p.txs|
      ensures BreaksAt(p, w, Action.Submit(id, now), i) <==> BreaksAt(p, w.(clock := now), Action.Submit(id, now), i)
    {
    }
  }

  ghost function Before(p: Package, w: Life, actions: seq<Action>, i: nat): Life
    requires i <= |actions|
  {
    Run(p, w, actions[..i])
  }

  lemma BeforeStep(p: Package, w: Life, actions: seq<Action>, i: nat)
    requires i < |actions|
    ensures Before(p, w, actions, i + 1) == Next(p, Before(p, w, actions, i), actions[i])
  {
    hide Next;
    assert actions[..i + 1][..i] == actions[..i];
  }

  ghost predicate AlwaysPrefix(p: Package, w: Life, actions: seq<Action>) {
    forall i | 0 <= i <= |actions| :: CommittedPrefix(p, Before(p, w, actions, i).rows)
  }

  /** None of the first `n` steps breaks the prefix. */
  ghost predicate NeverBreaks(p: Package, w: Life, actions: seq<Action>, n: nat)
    requires n <= |actions|
  {
    forall i | 0 <= i < n :: !Breaks(p, Before(p, w, actions, i), actions[i])
  }

  lemma {:induction false} UnbrokenIsPrefix(p: Package, w: Life, actions: seq<Action>, n: nat)
    requires WellFormed(p) && Inv(p, w) && CommittedPrefix(p, w.rows) && n <= |actions| && NeverBreaks(p, w, actions, n)
    ensures CommittedPrefix(p, Before(p, w, actions, n).rows)
    decreases n
  {
    hide Next; hide WellFormed; hide CommittedPrefix; hide Breaks;
    PackageSize(p);
    if n != 0 {
      UnbrokenIsPrefix(p, w, actions, n - 1);
      RunKeeps(p, w, actions[..n - 1]);
      hide Inv;
      StepPrefixIff(p, Before(p, w, actions, n - 1), actions[n - 1]);
      BeforeStep(p, w, actions, n - 1);
    }
  }

  /**
   Over a whole run the committed members are always a prefix if and only if no
   submission ever reaches an expired pending member whose successor is committed.
   */
  lemma RunPrefixIff(p: Package, w: Life, actions: seq<Action>)
    requires WellFormed(p) && Inv(p, w) && CommittedPrefix(p, w.rows)
    ensures AlwaysPrefix(p, w, actions) <==> NeverBreaks(p, w, actions, |actions|)
  {
    hide Next; hide WellFormed; hide CommittedPrefix; hide Breaks;
    PackageSize(p);
    hide Inv;
    if AlwaysPrefix(p, w, actions) {
      forall i | 0 <= i < |actions| ensures !Breaks(p, Before(p, w, actions, i), actions[i]) {
        RunKeeps(p, w, actions[..i]);
        assert CommittedPrefix(p, Before(p, w, actions, i).rows);
        StepPrefixIff(p, Before(p, w, actions, i), actions[i]);
        BeforeStep(p, w, actions, i);
        assert CommittedPrefix(p, Before(p, w, actions, i + 1).rows);
      }
    }
    if NeverBreaks(p, w, actions, |actions|) {
      forall i | 0 <= i <= |actions| ensures CommittedPrefix(p, Before(p, w, actions, i).rows) {
        UnbrokenIsPrefix(p, w, actions, i);
      }
    }
  }

  // ---- A package committed whole ------------------------------------------------------------------------

  /** The funding is committed, or the package expired and only attempted members are left. */
  ghost predicate Whole(p: Package, w: Life)
    requires |p.txs| > 0
  {
    FundingCommitted(p, w.rows) || (w.clock >= p.expiry && NothingPending(p, w.rows))
  }

  lemma WholeIsAlmostPrefix(p: Package, w: Life)
    requires |p.txs| > 0 && Inv(p, w) && Whole(p, w)
    ensures AlmostPrefix(p, w.rows)
    ensures NothingPending(p, w.rows) ==> CommittedPrefix(p, w.rows)
  {
    hide MemberOk; hide OutsideOk;
    assert forall j | 0 <= j < |p.txs| && Attempted(w.rows, p.txs[j]) :: Committed(w.rows, p.txs[j]);
  }

  lemma SameStatusWhole(p: Package, w: Life, w': Life)
    requires |p.txs| > 0 && Whole(p, w) && SameStatus(p, w.rows, w'.rows) && w.clock == w'.clock
    ensures Whole(p, w')
  {
    hide Committed; hide Attempted;
  }

  lemma CommitWhole(p: Package, w: Life, upTo: nat, now: nat, tests: seq<Journal.CommittedInputs>)
    requires WellFormed(p) && Whole(p, w) && upTo <= |p.txs| && upTo <= |tests| && w.clock <= now
    ensures Whole(p, w.(rows := Committing(p, w.rows, upTo, now, tests).rows, clock := now))
  {
    if FundingCommitted(p, w.rows) {
      CommitGrows(p, w.rows, upTo, now, tests, |p.txs| - 1);
    } else {
      CommitExpired(p, w.rows, upTo, now, tests);
    }
  }

  lemma StartWhole(p: Package, w: Life, now: nat, after: Rows)
    requires WellFormed(p) && RowsInv(p, w.rows) && Whole(p, w) && w.clock <= now && Abandoned(w.rows, now, after)
    ensures Whole(p, w.(rows := after, clock := now, pass := Some(Pass(now, after, {}))))
  {
    StartClears(p, w.rows, now, after);
    hide Abandoned; hide RowsInv; hide WellFormed; hide Committed; hide Attempted;
  }

  lemma SubmitWhole(p: Package, w: Life, id: nat)
    requires WellFormed(p) && Inv(p, w) && Whole(p, w) && w.pass.Some? && Callable(w.pass.value, id)
    ensures Whole(p, AfterSubmit(p, w, w.pass.value, id))
  {
    var b := Journal.Begin(w.rows, p.network, id, w.clock);
    if i :| 0 <= i < |p.txs| && p.txs[i].txid == id && b.Refused? && b.rows != w.rows {
      DropMember(p, w, i);
      hide Inv; hide WellFormed; hide Committed; hide Attempted; hide AfterSubmit; hide Callable; hide Journal.Begin;
    } else {
      if Member(p, id) { assert b.Refused? ==> b.rows == w.rows; }
      hide Inv; hide WellFormed; hide Journal.Begin; hide Callable;
      SubmitGrows(p, w, id);
      hide Committed; hide Attempted;
    }
  }

  lemma WholeStep(p: Package, w: Life, a: Action)
    requires WellFormed(p) && Inv(p, w) && Whole(p, w)
    ensures Whole(p, Next(p, w, a))
  {
    hide WellFormed; hide Committing; hide AfterSubmit; hide AfterFinishing; hide AfterObserving; hide OnlyPublications;
    hide Abandoned; hide Callable; hide OutsideOk; hide SameMembers; hide Whole; hide MemberOk; hide PassInv; hide SameStatus;
    PackageSize(p);
    match a
    case Commit(now, upTo, tests) =>
      if upTo <= |p.txs| && upTo <= |tests| && w.clock <= now { CommitWhole(p, w, upTo, now, tests); }
    case StartPass(now, after) =>
      if w.clock <= now && Abandoned(w.rows, now, after) { StartWhole(p, w, now, after); }
    case Submit(id, now) =>
      if w.clock <= now && w.pass.Some? && Callable(w.pass.value, id) {
        TimePasses(p, w, now);
        LaterWhole(p, w, now);
        SubmitWhole(p, w.(clock := now), id);
      }
    case Finish(i) =>
      if i < |p.txs| { FinishStatus(p, w, i); FinishClock(w, p.txs[i]); SameStatusWhole(p, w, AfterFinishing(w, p.txs[i])); }
    case Observe(i, seen, now) =>
      if i < |p.txs| {
        ObserveStatus(p, w, i, seen, now);
        ObserveClock(w, p.txs[i], seen, now);
        SameStatusWhole(p, w, AfterObserving(w, p.txs[i], seen, now));
      }
    case Outside(after) =>
      if SameMembers(p, w.rows, after) && OutsideOk(p, after) {
        OutsideStatus(p, w.rows, after);
        SameStatusWhole(p, w, w.(rows := after));
      }
  }

  lemma LaterWhole(p: Package, w: Life, now: nat)
    requires |p.txs| > 0 && Whole(p, w) && w.clock <= now
    ensures Whole(p, w.(clock := now))
  {
  }

  lemma FinishClock(w: Life, tx: Tx)
    ensures AfterFinishing(w, tx).clock == w.clock
  {
  }

  lemma ObserveClock(w: Life, tx: Tx, seen: Option<Journal.Seen>, now: nat)
    ensures AfterObserving(w, tx, seen, now).clock == w.clock
  {
  }

  /**
   Once the funding transaction is committed, in every later state the committed
   members are a prefix up to one gap, with everything before the gap attempted
   and everything after it committed.
   */
  lemma {:induction false} WholeForever(p: Package, w: Life, actions: seq<Action>)
    requires WellFormed(p) && Inv(p, w) && Whole(p, w)
    ensures Whole(p, Run(p, w, actions)) && AlmostPrefix(p, Run(p, w, actions).rows)
    decreases |actions|
  {
    hide Next; hide WellFormed; hide AlmostPrefix;
    PackageSize(p);
    if actions == [] {
      WholeIsAlmostPrefix(p, w);
    } else {
      var shorter := Run(p, w, actions[..|actions| - 1]);
      WholeForever(p, w, actions[..|actions| - 1]);
      RunKeeps(p, w, actions);
      RunKeeps(p, w, actions[..|actions| - 1]);
      hide Inv; hide Whole;
      WholeStep(p, shorter, actions[|actions| - 1]);
      WholeIsAlmostPrefix(p, Run(p, w, actions));
    }
  }

  /** The gap lasts at most until the next resume pass begins: from then on the committed members are a prefix again. */
  lemma NextPassRestores(p: Package, w: Life, now: nat, after: Rows)
    requires WellFormed(p) && Inv(p, w) && Whole(p, w) && w.clock <= now && Abandoned(w.rows, now, after)
    ensures CommittedPrefix(p, after)
    ensures now >= p.expiry ==> NothingPending(p, after)
  {
    StartClears(p, w.rows, now, after);
    if !(FundingCommitted(p, w.rows) && now >= p.expiry) {
      WholeIsAlmostPrefix(p, w);
      SameStatusPrefix(p, w.rows, after);
    }
    hide Abandoned; hide WellFormed; hide MemberOk; hide OutsideOk;
  }

  // ---- A commit stopped before the funding transaction, then expiry ------------------------------------------

  const FRAME0: Tx := Tx(1, 1, [OutPoint(9, 0)], Frame(0, 2))
  const FRAME1: Tx := Tx(2, 2, [OutPoint(1, 0)], Frame(1, 2))
  const FUNDING: Tx := Tx(3, 3, [OutPoint(2, 0)], Marker)
  const ONE_APPROVAL: Journal.Approval := Journal.Approval(0, 5, 10, 100)
  const THREE: Package := Package([FRAME0, FRAME1, FUNDING], [ONE_APPROVAL, ONE_APPROVAL, ONE_APPROVAL], 0, 100)
  const ROW0: Stored<Record> := Stored(1, Journal.Approved(Journal.NewRecord(FRAME0, ONE_APPROVAL, 1), FRAME0, ONE_APPROVAL, 1))
  const ROW1: Stored<Record> := Stored(1, Journal.Approved(Journal.NewRecord(FRAME1, ONE_APPROVAL, 1), FRAME1, ONE_APPROVAL, 1))
  const ROW2: Stored<Record> := Stored(1, Journal.Approved(Journal.NewRecord(FUNDING, ONE_APPROVAL, 1), FUNDING, ONE_APPROVAL, 1))
  const TWO_ROWS: Rows := map[1 := ROW0, 2 := ROW1]
  const THREE_ROWS: Rows := map[1 := ROW0, 2 := ROW1, 3 := ROW2]
  const TESTS: seq<Journal.CommittedInputs> := [Ok({}), Ok({}), Ok({})]

  lemma ThreeWellFormed()
    ensures WellFormed(THREE)
  {
    var t := THREE.txs;
    assert t[0] == FRAME0 && t[1] == FRAME1 && t[2] == FUNDING;
    assert InputTxids(FRAME0.inputs) == [9] && InputTxids(FRAME1.inputs) == [1] && InputTxids(FUNDING.inputs) == [2];
  }

  lemma TwoCommitted()
    ensures Committing(THREE, map[], 2, 1, TESTS) == Progress(TWO_ROWS, true)
  {
    assert Committing(THREE, map[], 0, 1, TESTS) == Progress(map[], true);
    assert Journal.Approve(map[], FRAME0, ONE_APPROVAL, 0, 1, Ok({})).Ok?;
    var one := Committing(THREE, map[], 1, 1, TESTS);
    assert one.ok && one.rows == map[1 := ROW0];
    assert Journal.Approve(one.rows, FRAME1, ONE_APPROVAL, 0, 1, Ok({})).Ok?;
    assert Committing(THREE, map[], 2, 1, TESTS).rows == TWO_ROWS;
  }

  lemma ThreeCommitted()
    ensures Committing(THREE, map[], 3, 1, TESTS) == Progress(THREE_ROWS, true)
  {
    TwoCommitted();
    var two := Committing(THREE, map[], 2, 1, TESTS);
    assert Journal.Approve(TWO_ROWS, FUNDING, ONE_APPROVAL, 0, 1, Ok({})).Ok?;
    assert Committing(THREE, map[], 3, 1, TESTS).rows == THREE_ROWS;
  }

  /** Without an expired funding transaction nothing is abandoned. */
  lemma NothingToAbandon(rows: Rows, now: nat)
    requires forall k :: !ExpiredFinal(rows, now, k)
    ensures Abandoned(rows, now, rows) && OnlyPublications(rows, now)
  {
  }

  /**
   When the commit stops before the funding transaction, expiry drops members
   from the front: the second stays committed after the first is gone.
   */
  lemma StoppedCommitLosesPrefix()
    ensures WellFormed(THREE)
    ensures var actions := [Commit(1, 2, TESTS), StartPass(100, TWO_ROWS), Action.Submit(1, 100)];
            !CommittedPrefix(THREE, Run(THREE, Life(map[], 0, None, []), actions).rows)
  {
    ThreeWellFormed();
    TwoCommitted();
    NothingToAbandon(TWO_ROWS, 100);
    hide Committing; hide Abandoned; hide WellFormed; hide Valid; hide OnlyPublications;
    var a := [Commit(1, 2, TESTS), StartPass(100, TWO_ROWS), Action.Submit(1, 100)];
    var w0 := Life(map[], 0, None, []);
    var w1 := Life(TWO_ROWS, 1, None, []);
    var w2 := Life(TWO_ROWS, 100, Some(Pass(100, TWO_ROWS, {})), []);
    assert Next(THREE, w0, a[0]) == w1;
    assert Next(THREE, w1, a[1]) == w2;
    DropsFirst();
    assert a[..3] == a && a[..2][..1] == a[..1] && a[..1][..0] == [] && a[..3][..2] == a[..2];
    assert Run(THREE, w0, []) == w0;
    assert Run(THREE, w0, a[..1]) == w1;
    assert Run(THREE, w0, a[..2]) == w2;
    assert Run(THREE, w0, a) == Next(THREE, w2, a[2]);
    var t := THREE.txs;
    assert t[0] == FRAME0 && t[1] == FRAME1;
  }

  lemma DropsFirst()
    ensures var w := Next(THREE, Life(TWO_ROWS, 100, Some(Pass(100, TWO_ROWS, {})), []), Action.Submit(1, 100));
            !Committed(w.rows, FRAME0) && Committed(w.rows, FRAME1)
  {
    assert InputTxids(FRAME0.inputs) == [9];
    assert Callable(Pass(100, TWO_ROWS, {}), 1);
    assert Journal.Begin(TWO_ROWS, 0, 1, 100) == Journal.Refused(Journal.Put(TWO_ROWS, 1, Journal.Dropped(ROW0.value, 100)), ApprovalExpired);
  }

  // ---- A whole package whose expiry comes inside a pass ----------------------------------------------------

  const SENT_ROWS: Rows := THREE_ROWS[1 := Stored(2, Journal.Started(ROW0.value, 99))]
  const GAP_ROWS: Rows := SENT_ROWS[2 := Stored(2, Journal.Dropped(ROW1.value, 100))]

  lemma SendsFirst()
    ensures Next(THREE, Life(THREE_ROWS, 99, Some(Pass(99, THREE_ROWS, {})), []), Action.Submit(1, 99)) ==
            Life(SENT_ROWS, 99, Some(Pass(99, THREE_ROWS, {1})), [Send(1, 99)])
  {
    assert InputTxids(FRAME0.inputs) == [9];
    assert Callable(Pass(99, THREE_ROWS, {}), 1);
    assert Journal.Begin(THREE_ROWS, 0, 1, 99) == Journal.Submit(SENT_ROWS, Journal.Started(ROW0.value, 99), 2);
    var pass := Pass(99, THREE_ROWS, {});
    assert pass.done + {1} == {1} && [] + [Send(1, 99)] == [Send(1, 99)];
    assert AfterSubmit(THREE, Life(THREE_ROWS, 99, Some(pass), []), pass, 1) ==
           Life(SENT_ROWS, 99, Some(Pass(99, THREE_ROWS, {1})), [Send(1, 99)]);
  }

  lemma DropsSecond()
    ensures Next(THREE, Life(SENT_ROWS, 99, Some(Pass(99, THREE_ROWS, {1})), [Send(1, 99)]), Action.Submit(2, 100)).rows == GAP_ROWS
  {
    assert InputTxids(FRAME1.inputs) == [1];
    assert Callable(Pass(99, THREE_ROWS, {1}), 2);
    assert Journal.Begin(SENT_ROWS, 0, 2, 100) == Journal.Refused(GAP_ROWS, ApprovalExpired);
  }

  /**
   A package committed whole: a pass begun at 99 sends the first member, reaches
   the second at its expiry and drops it, with the funding still committed.
   */
  lemma ExpiryInsidePassLeavesGap()
    ensures WellFormed(THREE)
    ensures var actions := [Commit(1, 3, TESTS), StartPass(99, THREE_ROWS), Action.Submit(1, 99), Action.Submit(2, 100)];
            var w := Run(THREE, Life(map[], 0, None, []), actions);
            !CommittedPrefix(THREE, w.rows) && FundingCommitted(THREE, w.rows)
  {
    ThreeWellFormed();
    ThreeCommitted();
    NothingToAbandon(THREE_ROWS, 99);
    SendsFirst();
    DropsSecond();
    var w0 := Life(map[], 0, None, []);
    var w1 := Life(THREE_ROWS, 1, None, []);
    var w2 := Life(THREE_ROWS, 99, Some(Pass(99, THREE_ROWS, {})), []);
    var w3 := Life(SENT_ROWS, 99, Some(Pass(99, THREE_ROWS, {1})), [Send(1, 99)]);
    var a := [Commit(1, 3, TESTS), StartPass(99, THREE_ROWS), Action.Submit(1, 99), Action.Submit(2, 100)];
    assert Next(THREE, w0, a[0]) == w1;
    assert Next(THREE, w1, a[1]) == w2;
    assert Next(THREE, w2, a[2]) == w3;
    GapIsLeft();
    hide Next; hide WellFormed; hide CommittedPrefix;
    assert a[..4] == a && a[..4][..3] == a[..3] && a[..3][..2] == a[..2] && a[..2][..1] == a[..1] && a[..1][..0] == [];
    assert Run(THREE, w0, []) == w0;
    assert Run(THREE, w0, a[..1]) == w1;
    assert Run(THREE, w0, a[..2]) == w2;
    assert Run(THREE, w0, a[..3]) == w3;
    assert Run(THREE, w0, a) == Next(THREE, w3, a[3]);
  }

  lemma GapIsLeft()
    ensures !CommittedPrefix(THREE, GAP_ROWS) && FundingCommitted(THREE, GAP_ROWS)
  {
    var t := THREE.txs;
    assert t[1] == FRAME1 && t[2] == FUNDING;
    assert !Committed(GAP_ROWS, t[1]) && Committed(GAP_ROWS, t[2]);
  }
}
