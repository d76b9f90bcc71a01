/**
 The broadcast journal of the runtime: one record per transaction, holding the
 approved signed bytes, the approval they are bound to, the submission phase and
 the chain observation.
 */
module Broadcast {
  import opened RecordStore

  const MAX_ATTEMPTS: nat := 16
  const MIN_RETRY_SECONDS: nat := 60
  const MAX_APPROVAL_SECONDS: nat := 3600
  const MAX_TRACKED: nat := 4096
  const MAX_FRAMES: nat := 24

  datatype OutPoint = OutPoint(txid: nat, vout: nat)

  /** What the transaction's one data output holds, if it has exactly one. */
  datatype Data = NoData | Marker | Frame(index: int, count: int)

  /** A signed transaction; its ids are fixed by its bytes. */
  datatype Tx = Tx(txid: nat, wtxid: nat, inputs: seq<OutPoint>, data: Data)

  predicate IsRecoverableFunding(tx: Tx) {
    tx.data.Marker?
  }

  predicate IsPublication(tx: Tx) {
    tx.data.Marker? || (tx.data.Frame? && 0 <= tx.data.index < tx.data.count <= MAX_FRAMES)
  }

  datatype Observation = Absent | Unconfirmed(lastSeen: int) | Confirmed(height: int, blockHash: int)

  datatype Phase = Prepared | SubmissionStarted | Submitted

  /** The hash an approval is bound by, as an injective constructor. */
  datatype Commitment = Commitment(network: int, txid: nat, wtxid: nat, fee: nat, maxFee: nat, expiresAt: nat)

  datatype Intent = Intent(
    network: int, commitment: Commitment, fee: nat, maxFee: nat, preparedAt: nat, expiresAt: nat,
    phase: Phase, attempts: nat, startedAt: Option<int>, submittedAt: Option<int>)

  datatype Record = Record(
    txid: nat, wtxid: nat, fee: Option<int>, sent: nat, received: nat, observation: Observation,
    raw: Option<Tx>, broadcast: Option<Intent>, lastChanged: nat)

  datatype Error =
    | Corrupt | InvalidEvidence | NotFound | NotPrepared | Conflict | NetworkMismatch | ClockRollback
    | ApprovalExpired | RetryNotReady | AttemptLimit | InvalidApproval | SequenceOverflow | Capacity
    | Store(error: StoreError)

  type Rows = Table<nat, Record>

  predicate PhaseValid(i: Intent) {
    match i.phase
    case Prepared => i.attempts == 0 && i.startedAt.None? && i.submittedAt.None?
    case SubmissionStarted =>
      i.attempts != 0 && i.startedAt.Some? && (i.submittedAt.Some? ==> i.submittedAt.value <= i.startedAt.value)
    case Submitted => i.attempts != 0 && i.startedAt.Some? && i.startedAt == i.submittedAt
  }

  predicate IntentValid(r: Record, i: Intent) {
    && PhaseValid(i)
    && (i.startedAt.Some? ==> i.startedAt.value >= i.preparedAt)
    && (i.submittedAt.Some? ==> i.submittedAt.value >= i.preparedAt)
    && 0 < i.fee <= i.maxFee
    && i.preparedAt < i.expiresAt <= i.preparedAt + MAX_APPROVAL_SECONDS
    && i.attempts <= MAX_ATTEMPTS
    && i.commitment == Commitment(i.network, r.txid, r.wtxid, i.fee, i.maxFee, i.expiresAt)
    && r.fee == Some(i.fee)
  }

  /** `BitcoinTransactionRecord::validate`. */
  predicate Valid(r: Record) {
    && r.broadcast.Some? == r.raw.Some?
    && (r.raw.Some? ==> r.raw.value.txid == r.txid && r.raw.value.wtxid == r.wtxid)
    && (r.broadcast.Some? ==> IntentValid(r, r.broadcast.value))
  }

  /** `broadcast_is_ready_to_resume`: the retry loop may still act on the record. */
  predicate Resumable(r: Record) {
    r.raw.Some? && r.broadcast.Some? && r.broadcast.value.attempts < MAX_ATTEMPTS && r.observation.Absent?
  }
}
