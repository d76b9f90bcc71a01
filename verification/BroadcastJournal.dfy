/**
 Approval, submission, retry, expiry and chain observation as transactions on
 the broadcast records, and what every run of them keeps of one transaction.
 */
module BroadcastJournal {
  import opened RecordStore
  import opened Broadcast

  function Put(rows: Rows, txid: nat, r: Record): Rows {
    rows[txid := Stored(Revision(rows, txid) + 1, r)]
  }

  // ---- Approval: `persist_approved_bitcoin_broadcast` ----------------------------

  datatype Approval = Approval(network: int, fee: nat, maxFee: nat, expiresAt: nat)

  function Bind(a: Approval, tx: Tx): Commitment {
    Commitment(a.network, tx.txid, tx.wtxid, a.fee, a.maxFee, a.expiresAt)
  }

  function NewRecord(tx: Tx, a: Approval, now: nat): Record {
    Record(tx.txid, tx.wtxid, Some(a.fee), 0, 0, Absent, None, None, now)
  }

  function Approved(r: Record, tx: Tx, a: Approval, now: nat): Record {
    r.(raw := Some(tx), fee := Some(a.fee), lastChanged := now,
       broadcast := Some(Intent(a.network, Bind(a, tx), a.fee, a.maxFee, now, a.expiresAt, Prepared, 0, None, None)))
  }

  predicate Reserving(r: Record) {
    r.broadcast.Some? && r.raw.Some? && r.observation.Absent?
  }

  /** The record an approval starts from: the stored one, or a new one. */
  function Target(rows: Rows, tx: Tx, a: Approval, now: nat): Record {
    if tx.txid in rows then rows[tx.txid].value else NewRecord(tx, a, now)
  }

  /** What the overlap test found: the inputs committed so far, or why they could not be collected. */
  type CommittedInputs = Result<set<OutPoint>, Error>

  /** `committed` is asked for only when the transaction has no record yet. */
  function Approve(rows: Rows, tx: Tx, a: Approval, expected: nat, now: nat, committed: CommittedInputs): Result<Rows, Error> {
    var r := Target(rows, tx, a, now);
    if a.expiresAt <= now || a.expiresAt > now + MAX_APPROVAL_SECONDS then Err(InvalidApproval)
    else if Revision(rows, tx.txid) != expected then Err(Conflict)
    else if tx.txid !in rows && committed.Err? then Err(committed.error)
    else if tx.txid !in rows && exists o | o in tx.inputs :: o in committed.value then Err(Conflict)
    else if !Valid(r) then Err(Corrupt)
    else if r.txid != tx.txid || r.wtxid != tx.wtxid || (r.fee.Some? && r.fee.value != a.fee) then Err(Conflict)
    else if r.broadcast.Some? then
      var i := r.broadcast.value;
      if r.raw == Some(tx) && i.network == a.network && i.commitment == Bind(a, tx) && i.fee == a.fee
         && i.maxFee == a.maxFee && i.expiresAt == a.expiresAt
      then Ok(rows) else Err(Conflict)
    else if !Valid(Approved(r, tx, a, now)) then Err(Corrupt)
    else Ok(Put(rows, tx.txid, Approved(r, tx, a, now)))
  }

  // ---- Submission: `begin_broadcast_submission` and the save after the send --------

  datatype Begun = Submit(rows: Rows, record: Record, revision: nat) | Observed | Refused(rows: Rows, error: Error)

  function Dropped(r: Record, now: nat): Record {
    r.(broadcast := None, raw := None, lastChanged := now)
  }

  function Started(r: Record, now: nat): Record
    requires r.broadcast.Some?
  {
    var i := r.broadcast.value;
    r.(broadcast := Some(i.(attempts := i.attempts + 1, phase := SubmissionStarted, startedAt := Some(now))))
  }

  function Sent(r: Record, now: nat): Record
    requires r.broadcast.Some?
  {
    r.(broadcast := Some(r.broadcast.value.(phase := Submitted, submittedAt := Some(now))))
  }

  function LastAttempt(i: Intent): Option<int> {
    match i.phase
    case Prepared => None
    case SubmissionStarted => i.startedAt
    case Submitted => i.submittedAt
  }

  function Begin(rows: Rows, network: int, txid: nat, now: nat): Begun {
    if txid !in rows then Refused(rows, NotFound)
    else
      var r := rows[txid].value;
      if !Valid(r) then Refused(rows, Corrupt)
      else if r.raw.None? || r.broadcast.None? then Refused(rows, NotPrepared)
      else if r.raw.value.txid != txid then Refused(rows, Conflict)
      else
        var i := r.broadcast.value;
        if i.network != network then Refused(rows, NetworkMismatch)
        else if now < i.preparedAt then Refused(rows, ClockRollback)
        else if !r.observation.Absent? then Observed
        else if IsPublication(r.raw.value) && now >= i.expiresAt then
          Refused(if i.attempts == 0 then Put(rows, txid, Dropped(r, now)) else rows, ApprovalExpired)
        else if LastAttempt(i).Some? && now < LastAttempt(i).value then Refused(rows, ClockRollback)
        else if LastAttempt(i).Some? && LastAttempt(i).value + MIN_RETRY_SECONDS > U64_MAX then Refused(rows, SequenceOverflow)
        else if LastAttempt(i).Some? && now < LastAttempt(i).value + MIN_RETRY_SECONDS then Refused(rows, RetryNotReady)
        else if i.attempts >= MAX_ATTEMPTS then Refused(rows, AttemptLimit)
        else Submit(Put(rows, txid, Started(r, now)), Started(r, now), rows[txid].revision + 1)
  }

  // ---- Chain observation: `reconcile_transaction_records`, one record at a time -----

  /** What the wallet's canonical view says of a transaction. */
  datatype Seen = Seen(observation: Observation, wtxid: nat, sent: nat, received: nat, fee: Option<int>)

  /** The record written for one transaction of the view, or for one missing from it. */
  function Reconciled(prior: Option<Record>, txid: nat, seen: Option<Seen>, now: nat): Option<Record> {
    match seen
    case Some(s) =>
      var fee := if prior.Some? && prior.value.broadcast.Some? then Some(prior.value.broadcast.value.fee) else s.fee;
      var raw := if prior.Some? then prior.value.raw else None;
      var same := prior.Some? && prior.value.observation == s.observation && prior.value.sent == s.sent
                  && prior.value.received == s.received && prior.value.fee == fee;
      Some(Record(txid, if raw.Some? then raw.value.wtxid else s.wtxid, fee, s.sent, s.received, s.observation,
                  raw, if prior.Some? then prior.value.broadcast else None, if same then prior.value.lastChanged else now))
    case None =>
      if prior.Some? && !prior.value.observation.Absent?
      then Some(prior.value.(observation := Absent, lastChanged := now)) else prior
  }

  // ---- Runs --------------------------------------------------------------------------

  datatype InFlight = InFlight(txid: nat, revision: nat, record: Record, now: nat)

  /** `sends` is the history of times at which each transaction was handed to the network. */
  datatype World = World(rows: Rows, inFlight: map<nat, InFlight>, sends: map<nat, seq<nat>>)

  datatype Action =
    | DoApprove(tx: Tx, approval: Approval, expected: nat, now: nat, committed: CommittedInputs)
    | DoBegin(slot: nat, network: int, txid: nat, now: nat)
    | DoFinish(slot: nat)
    | DoAbandon(txid: nat, now: nat)
    | DoReconcile(txid: nat, seen: Option<Seen>, now: nat)

  function Sends(w: World, txid: nat): seq<nat> {
    if txid in w.sends then w.sends[txid] else []
  }

  function AfterBegin(w: World, slot: nat, network: int, txid: nat, now: nat): World {
    match Begin(w.rows, network, txid, now)
    case Submit(rows, record, revision) =>
      World(rows, w.inFlight[slot := InFlight(txid, revision, record, now)], w.sends[txid := Sends(w, txid) + [now]])
    case Observed => w
    case Refused(rows, _) => w.(rows := rows)
  }

  function AfterFinish(w: World, slot: nat): World {
    if slot !in w.inFlight then w
    else
      var f := w.inFlight[slot];
      var done := w.(inFlight := w.inFlight - {slot});
      if f.record.broadcast.None? || Revision(w.rows, f.txid) != f.revision then done
      else done.(rows := Put(w.rows, f.txid, Sent(f.record, f.now)))
  }

  /** Expiry may drop only what was never attempted and is not on the chain. */
  predicate Abandonable(rows: Rows, txid: nat) {
    txid in rows && rows[txid].value.broadcast.Some? && rows[txid].value.broadcast.value.attempts == 0
    && rows[txid].value.observation.Absent?
  }

  /** The walk over expired packages drops recovery publications only. */
  predicate Expirable(rows: Rows, txid: nat) {
    Abandonable(rows, txid) && rows[txid].value.raw.Some? && IsPublication(rows[txid].value.raw.value)
  }

  function Next(w: World, a: Action): World {
    match a
    case DoApprove(tx, approval, expected, now, committed) =>
      (match Approve(w.rows, tx, approval, expected, now, committed)
       case Ok(rows) => w.(rows := rows)
       case Err(_) => w)
    case DoBegin(slot, network, txid, now) => AfterBegin(w, slot, network, txid, now)
    case DoFinish(slot) => AfterFinish(w, slot)
    case DoAbandon(txid, now) =>
      if Expirable(w.rows, txid) then w.(rows := Put(w.rows, txid, Dropped(w.rows[txid].value, now))) else w
    case DoReconcile(txid, seen, now) =>
      var prior := if txid in w.rows then Some(w.rows[txid].value) else None;
      var next := Reconciled(prior, txid, seen, now);
      if next.None? || next == prior then w else w.(rows := Put(w.rows, txid, next.value))
  }

  function Run(w: World, actions: seq<Action>): World
    decreases |actions|
  {
    if actions == [] then w else Next(Run(w, actions[..|actions| - 1]), actions[|actions| - 1])
  }

  // ---- The invariant ---------------------------------------------------------------------

  /** Submissions are at least a minute apart. */
  ghost predicate Spaced(times: seq<nat>) {
    forall i | 0 < i < |times| :: times[i - 1] + MIN_RETRY_SECONDS <= times[i]
  }

  /** One record and the submissions made for it. */
  ghost predicate RecordInv(rows: Rows, txid: nat, sends: seq<nat>) {
    && (txid !in rows ==> sends == [])
    && (txid in rows ==>
          var r := rows[txid].value;
          && rows[txid].revision > 0
          && r.txid == txid && Valid(r)
          && (r.broadcast.None? ==> sends == [])
          && (r.broadcast.Some? ==>
                && r.broadcast.value.attempts == |sends|
                && (sends != [] ==> r.broadcast.value.startedAt == Some(sends[|sends| - 1]))))
    && Spaced(sends)
  }

  /** A submission in flight carries the record as it was saved at its revision. */
  ghost predicate FlightInv(rows: Rows, f: InFlight) {
    && f.txid in rows && f.revision <= rows[f.txid].revision
    && (f.revision == rows[f.txid].revision ==> rows[f.txid].value == f.record)
    && f.record.broadcast.Some? && f.record.broadcast.value.phase == SubmissionStarted
    && f.record.broadcast.value.startedAt == Some(f.now)
  }

  ghost predicate Inv(w: World) {
    && (forall txid: nat :: RecordInv(w.rows, txid, Sends(w, txid)))
    && (forall slot | slot in w.inFlight :: FlightInv(w.rows, w.inFlight[slot]))
  }

  /** A write to one record leaves the others and every other flight alone. */
  lemma PutKeeps(w: World, txid: nat, r: Record, sends: map<nat, seq<nat>>, flights: map<nat, InFlight>)
    requires Inv(w)
    requires forall id: nat | id != txid :: Sends(w.(sends := sends), id) == Sends(w, id)
    requires RecordInv(Put(w.rows, txid, r), txid, Sends(w.(sends := sends), txid))
    requires forall slot | slot in flights ::
               (slot in w.inFlight && flights[slot] == w.inFlight[slot]) || FlightInv(Put(w.rows, txid, r), flights[slot])
    ensures Inv(World(Put(w.rows, txid, r), flights, sends))
  {
    hide Valid;
    var w' := World(Put(w.rows, txid, r), flights, sends);
    forall id: nat ensures RecordInv(w'.rows, id, Sends(w', id)) {
      assert RecordInv(w.rows, id, Sends(w, id));
    }
    forall slot | slot in flights ensures FlightInv(w'.rows, flights[slot]) {
      if slot in w.inFlight && flights[slot] == w.inFlight[slot] {
        assert FlightInv(w.rows, w.inFlight[slot]);
      }
    }
  }

  lemma ApproveStep(w: World, tx: Tx, a: Approval, expected: nat, now: nat, committed: CommittedInputs)
    requires Inv(w)
    ensures Inv(Next(w, DoApprove(tx, a, expected, now, committed)))
  {
    assert RecordInv(w.rows, tx.txid, Sends(w, tx.txid));
    var r := Target(w.rows, tx, a, now);
    var approved := Approved(r, tx, a, now);
    var outcome := Approve(w.rows, tx, a, expected, now, committed);
    if outcome.Ok? && outcome.value != w.rows {
      assert outcome.value == Put(w.rows, tx.txid, approved);
      assert RecordInv(Put(w.rows, tx.txid, approved), tx.txid, Sends(w, tx.txid));
      PutKeeps(w, tx.txid, approved, w.sends, w.inFlight);
    }
  }

  /** Starting a submission respects the interval and the limit, and keeps the record valid. */
  lemma StartedValid(rows: Rows, network: int, txid: nat, now: nat, sends: seq<nat>)
    requires RecordInv(rows, txid, sends) && Begin(rows, network, txid, now).Submit?
    ensures RecordInv(Put(rows, txid, Started(rows[txid].value, now)), txid, sends + [now])
    ensures Begin(rows, network, txid, now) ==
            Submit(Put(rows, txid, Started(rows[txid].value, now)), Started(rows[txid].value, now), rows[txid].revision + 1)
  {
    var r := rows[txid].value;
    var longer := sends + [now];
    if sends != [] {
      assert LastAttempt(r.broadcast.value) == Some(sends[|sends| - 1]);
    }
    forall i | 0 < i < |longer| ensures longer[i - 1] + MIN_RETRY_SECONDS <= longer[i] {
      if i < |sends| { assert sends[i - 1] + MIN_RETRY_SECONDS <= sends[i]; }
    }
  }

  lemma DroppedKeeps(w: World, txid: nat, now: nat)
    requires Inv(w) && Abandonable(w.rows, txid)
    ensures Inv(w.(rows := Put(w.rows, txid, Dropped(w.rows[txid].value, now))))
  {
    assert RecordInv(w.rows, txid, Sends(w, txid));
    PutKeeps(w, txid, Dropped(w.rows[txid].value, now), w.sends, w.inFlight);
  }

  lemma BeginStep(w: World, slot: nat, network: int, txid: nat, now: nat)
    requires Inv(w)
    ensures Inv(AfterBegin(w, slot, network, txid, now))
  {
    assert RecordInv(w.rows, txid, Sends(w, txid));
    var b := Begin(w.rows, network, txid, now);
    if b.Submit? {
      StartedValid(w.rows, network, txid, now, Sends(w, txid));
      var r := Started(w.rows[txid].value, now);
      PutKeeps(w, txid, r, w.sends[txid := Sends(w, txid) + [now]],
               w.inFlight[slot := InFlight(txid, w.rows[txid].revision + 1, r, now)]);
    } else if b.Refused? && b.rows != w.rows {
      DroppedKeeps(w, txid, now);
    }
  }

  lemma FinishStep(w: World, slot: nat)
    requires Inv(w)
    ensures Inv(AfterFinish(w, slot))
  {
    if slot in w.inFlight {
      var f := w.inFlight[slot];
      assert FlightInv(w.rows, f);
      assert RecordInv(w.rows, f.txid, Sends(w, f.txid));
      if Revision(w.rows, f.txid) == f.revision {
        PutKeeps(w, f.txid, Sent(f.record, f.now), w.sends, w.inFlight - {slot});
      } else {
        var done := AfterFinish(w, slot);
        forall txid: nat ensures RecordInv(done.rows, txid, Sends(done, txid)) {
          assert RecordInv(w.rows, txid, Sends(w, txid));
        }
      }
    }
  }

  lemma ReconcileStep(w: World, txid: nat, seen: Option<Seen>, now: nat)
    requires Inv(w)
    ensures Inv(Next(w, DoReconcile(txid, seen, now)))
  {
    assert RecordInv(w.rows, txid, Sends(w, txid));
    var prior := if txid in w.rows then Some(w.rows[txid].value) else None;
    var next := Reconciled(prior, txid, seen, now);
    if next.Some? && next != prior {
      PutKeeps(w, txid, next.value, w.sends, w.inFlight);
    }
  }

  lemma StepKeeps(w: World, a: Action)
    requires Inv(w)
    ensures Inv(Next(w, a))
  {
    hide Inv; hide Approve; hide Reconciled; hide AfterBegin; hide AfterFinish;
    match a
    case DoApprove(tx, approval, expected, now, committed) => ApproveStep(w, tx, approval, expected, now, committed);
    case DoBegin(slot, network, txid, now) => BeginStep(w, slot, network, txid, now);
    case DoFinish(slot) => FinishStep(w, slot);
    case DoAbandon(txid, now) => if Expirable(w.rows, txid) { DroppedKeeps(w, txid, now); }
    case DoReconcile(txid, seen, now) => ReconcileStep(w, txid, seen, now);
  }

  lemma {:induction false} RunKeeps(w: World, actions: seq<Action>)
    requires Inv(w)
    ensures Inv(Run(w, actions))
    decreases |actions|
  {
    hide Next; hide Inv;
    if actions != [] {
      RunKeeps(w, actions[..|actions| - 1]);
      StepKeeps(Run(w, actions[..|actions| - 1]), actions[|actions| - 1]);
    }
  }

  /**
   Over every run from an empty journal: each record stays valid, a transaction
   is handed to the network at most sixteen times, and never twice within a
   minute.
   */
  lemma SubmissionsAreBounded(actions: seq<Action>, txid: nat)
    ensures var w := Run(World(map[], map[], map[]), actions);
            && |Sends(w, txid)| <= MAX_ATTEMPTS
            && Spaced(Sends(w, txid))
            && (txid in w.rows ==> Valid(w.rows[txid].value))
  {
    RunKeeps(World(map[], map[], map[]), actions);
    var w := Run(World(map[], map[], map[]), actions);
    hide Run;
    assert RecordInv(w.rows, txid, Sends(w, txid));
  }

  /**
   In terms of the history: a submission is made exactly for an approved,
   unobserved transaction of this network, not before it was prepared, not an
   expired publication, sent fewer than sixteen times and not within the last
   minute.
   */
  lemma SubmitsExactlyWhen(w: World, network: int, txid: nat, now: nat)
    requires Inv(w)
    ensures var sends := Sends(w, txid);
            Begin(w.rows, network, txid, now).Submit? <==>
              && txid in w.rows && w.rows[txid].value.broadcast.Some? && w.rows[txid].value.observation.Absent?
              && var i := w.rows[txid].value.broadcast.value;
                 && i.network == network && i.preparedAt <= now
                 && !(w.rows[txid].value.raw.Some? && IsPublication(w.rows[txid].value.raw.value) && i.expiresAt <= now)
                 && |sends| < MAX_ATTEMPTS
                 && (sends != [] ==> sends[|sends| - 1] + MIN_RETRY_SECONDS <= now && sends[|sends| - 1] + MIN_RETRY_SECONDS <= U64_MAX)
  {
    assert RecordInv(w.rows, txid, Sends(w, txid));
  }

  /** The lifetime, the fee, the revision, and the ids and fee of a stored record allow the approval. */
  predicate TermsAllowed(rows: Rows, tx: Tx, a: Approval, expected: nat, now: nat) {
    && now < a.expiresAt <= now + MAX_APPROVAL_SECONDS && 0 < a.fee <= a.maxFee
    && Revision(rows, tx.txid) == expected
    && (tx.txid in rows ==>
          rows[tx.txid].value.wtxid == tx.wtxid && (rows[tx.txid].value.fee.None? || rows[tx.txid].value.fee == Some(a.fee)))
  }

  /** A transaction that no record knows, or whose record was dropped, is approved exactly under these terms. */
  lemma ApprovesExactlyWhen(w: World, tx: Tx, a: Approval, expected: nat, now: nat, committed: CommittedInputs)
    requires Inv(w) && (tx.txid in w.rows ==> w.rows[tx.txid].value.broadcast.None?)
    ensures Approve(w.rows, tx, a, expected, now, committed).Ok? <==>
              && TermsAllowed(w.rows, tx, a, expected, now)
              && (tx.txid !in w.rows ==> committed.Ok? && forall o | o in tx.inputs :: o !in committed.value)
    ensures Approve(w.rows, tx, a, expected, now, committed).Ok? ==>
              var r := Approve(w.rows, tx, a, expected, now, committed).value[tx.txid].value;
              r.raw == Some(tx) && r.broadcast.Some? && r.broadcast.value.attempts == 0 && r.broadcast.value.expiresAt == a.expiresAt
  {
    assert RecordInv(w.rows, tx.txid, Sends(w, tx.txid));
  }

  /** An approved transaction is approved again only under the very same bytes and terms, and nothing is written. */
  lemma ReapprovalIsIdempotent(w: World, tx: Tx, a: Approval, expected: nat, now: nat, committed: CommittedInputs)
    requires Inv(w) && tx.txid in w.rows && w.rows[tx.txid].value.broadcast.Some?
    requires now < a.expiresAt <= now + MAX_APPROVAL_SECONDS && w.rows[tx.txid].revision == expected
    ensures var r := w.rows[tx.txid].value;
            Approve(w.rows, tx, a, expected, now, committed) ==
              if r.raw == Some(tx) && r.broadcast.value.commitment == Bind(a, tx) then Ok(w.rows) else Err(Conflict)
  {
    assert RecordInv(w.rows, tx.txid, Sends(w, tx.txid));
  }

  // ---- Once attempted, the approval is fixed --------------------------------------------------

  /** The signed bytes and every term of the approval are the same in both. */
  ghost predicate SameTerms(a: Record, b: Record) {
    && a.raw.Some? && a.raw == b.raw && a.fee == b.fee && a.wtxid == b.wtxid
    && a.broadcast.Some? && b.broadcast.Some?
    && var i, j := a.broadcast.value, b.broadcast.value;
       && i.network == j.network && i.commitment == j.commitment && i.fee == j.fee && i.maxFee == j.maxFee
       && i.preparedAt == j.preparedAt && i.expiresAt == j.expiresAt
  }

  ghost predicate Frozen(w: World, w': World, txid: nat) {
    && txid in w.rows && txid in w'.rows
    && SameTerms(w.rows[txid].value, w'.rows[txid].value)
    && Sends(w, txid) <= Sends(w', txid)
  }

  lemma StepFreezes(w: World, a: Action, txid: nat)
    requires Inv(w) && Sends(w, txid) != []
    ensures Frozen(w, Next(w, a), txid)
  {
    assert RecordInv(w.rows, txid, Sends(w, txid));
    match a
    case DoApprove(tx, approval, expected, now, committed) => hide Valid;
    case DoBegin(slot, network, id, now) => hide Valid;
    case DoFinish(slot) =>
      hide Valid;
      if slot in w.inFlight { assert FlightInv(w.rows, w.inFlight[slot]); }
      AttemptedHasTerms(w, txid);
    case DoAbandon(id, now) => hide Valid; AttemptedHasTerms(w, txid);
    case DoReconcile(id, seen, now) => ReconcileFreezes(w, txid, id, seen, now);
  }

  lemma ReconcileFreezes(w: World, txid: nat, id: nat, seen: Option<Seen>, now: nat)
    requires RecordInv(w.rows, txid, Sends(w, txid)) && Sends(w, txid) != []
    ensures Frozen(w, Next(w, DoReconcile(id, seen, now)), txid)
  {
  }

  /**
   From the first submission on, no retry, expiry, re-approval or reconciliation
   of any later run changes or drops the signed bytes, the fee or the approval.
   */
  lemma {:induction false} AttemptedIsForever(w: World, actions: seq<Action>, txid: nat)
    requires Inv(w) && Sends(w, txid) != []
    ensures Frozen(w, Run(w, actions), txid)
    decreases |actions|
  {
    hide Next; hide Inv; hide RecordInv;
    if actions == [] {
      AttemptedHasTerms(w, txid);
    } else {
      var shorter := Run(w, actions[..|actions| - 1]);
      AttemptedIsForever(w, actions[..|actions| - 1], txid);
      RunKeeps(w, actions[..|actions| - 1]);
      StepFreezes(shorter, actions[|actions| - 1], txid);
    }
  }

  lemma AttemptedHasTerms(w: World, txid: nat)
    requires Inv(w) && Sends(w, txid) != []
    ensures Frozen(w, w, txid)
  {
    assert RecordInv(w.rows, txid, Sends(w, txid));
  }
}
