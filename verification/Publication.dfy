/**
 Public recovery records: the 204-byte encoding of the swap terms, cut into
 frames for a chain's data outputs, and the marker that commits to them.
 */
module Publication {
  import opened RecordStore
  import opened FilterFraming

  const FRAME_MAGIC: Bytes := [0x53, 0x52]
  const MARKER_MAGIC: Bytes := [0x53, 0x52, 0x46, 0x31]
  const FRAME_HEADER_BYTES: nat := 4
  const TERMS_BYTES: nat := 204
  const MAX_FRAMES: nat := 24
  const MIN_REFUND_TIME: nat := 500_000_000

  datatype ChainId = Bitcoin | Handshake | OtherChain

  datatype Asset = HNS | BTC | OtherAsset

  datatype Side = Offered | Received

  /** `valid` says that the binding is one for the pair, with Bitcoin as the counterchain. */
  datatype Network = Network(id: nat, valid: bool)

  datatype Terms = Terms(
    network: Network, session: Bytes, offer: Bytes, maker: Bytes, taker: Bytes, hashlock: Bytes, asset: Asset,
    offeredAmount: nat, receivedAmount: nat, offeredRefund: nat, receivedRefund: nat,
    offeredConfirmations: nat, receivedConfirmations: nat)

  datatype Htlc = Htlc(chain: ChainId, amount: nat, hashlock: Bytes, receiver: Bytes, refund: Bytes, refundAt: nat, confirmations: nat)

  datatype Error = UnsupportedChain | InvalidAgreement | CapacityExceeded | InvalidPublication

  /** The field widths of the program's types. */
  predicate Sized(t: Terms) {
    && |t.session| == 32 && |t.offer| == 32 && |t.maker| == 33 && |t.taker| == 33 && |t.hashlock| == 32
    && t.offeredAmount < Power(8) && t.receivedAmount < Power(8) && t.offeredRefund < Power(8) && t.receivedRefund < Power(8)
    && t.offeredConfirmations < Power(4) && t.receivedConfirmations < Power(4)
  }

  function Zeros(n: nat): Bytes {
    seq(n, _ => 0)
  }

  /** `validate`; whether a key is a curve point is the caller's predicate. */
  predicate Valid(t: Terms, point: Bytes -> bool) {
    && t.network.valid && (t.asset == HNS || t.asset == BTC)
    && t.session != Zeros(32) && t.offer != Zeros(32) && t.hashlock != Zeros(32)
    && t.maker != t.taker && t.offeredAmount != 0 && t.receivedAmount != 0
    && t.receivedRefund < t.offeredRefund && MIN_REFUND_TIME <= t.receivedRefund
    && t.offeredConfirmations != 0 && t.receivedConfirmations != 0
    && point(t.maker) && point(t.taker)
  }

  function ChainOf(a: Asset): ChainId {
    match a
    case HNS => Handshake
    case BTC => Bitcoin
    case OtherAsset => OtherChain
  }

  function HtlcOf(t: Terms, side: Side): Htlc {
    match side
    case Offered => Htlc(ChainOf(t.asset), t.offeredAmount, t.hashlock, t.taker, t.maker, t.offeredRefund, t.offeredConfirmations)
    case Received =>
      Htlc(if t.asset == HNS then Bitcoin else Handshake, t.receivedAmount, t.hashlock, t.maker, t.taker,
           t.receivedRefund, t.receivedConfirmations)
  }

  // ---- Big-endian numbers and fields --------------------------------------------------------------

  function Big(n: nat, k: nat): (r: Bytes)
    ensures |r| == k
  {
    if k == 0 then [] else Big(n / 256, k - 1) + [n % 256]
  }

  function BigNumber(b: Bytes): nat
    decreases |b|
  {
    if b == [] then 0 else 256 * BigNumber(b[..|b| - 1]) + b[|b| - 1]
  }

  lemma {:induction false} BigRoundTrip(n: nat, k: nat)
    requires n < Power(k)
    ensures BigNumber(Big(n, k)) == n
    decreases k
  {
    if k != 0 {
      BigRoundTrip(n / 256, k - 1);
      assert Big(n, k)[..k - 1] == Big(n / 256, k - 1);
    }
  }

  lemma {:induction false} BigIsCanonical(b: Bytes)
    ensures BigNumber(b) < Power(|b|) && Big(BigNumber(b), |b|) == b
    decreases |b|
  {
    if b != [] {
      var front, last := b[..|b| - 1], b[|b| - 1];
      BigIsCanonical(front);
      var rest := BigNumber(front);
      assert (256 * rest + last) / 256 == rest && (256 * rest + last) % 256 == last;
      assert b == front + [last];
    }
  }

  function Join(parts: seq<Bytes>): Bytes
    decreases |parts|
  {
    if parts == [] then [] else Join(parts[..|parts| - 1]) + parts[|parts| - 1]
  }

  predicate PartAt(parts: seq<Bytes>, offsets: seq<nat>, i: nat)
    requires |offsets| == |parts| + 1 && i < |parts|
  {
    offsets[i] + |parts[i]| == offsets[i + 1]
  }

  /** Offsets of consecutive fields: each field ends where the next begins. */
  ghost predicate Fit(parts: seq<Bytes>, offsets: seq<nat>) {
    |offsets| == |parts| + 1 && offsets[0] == 0 && forall i | 0 <= i < |parts| :: PartAt(parts, offsets, i)
  }

  predicate StepAt(size: nat, offsets: seq<nat>, i: nat)
    requires i + 1 < |offsets|
  {
    offsets[i] <= offsets[i + 1] <= size
  }

  predicate Bounds(b: Bytes, offsets: seq<nat>) {
    && |offsets| > 0 && offsets[0] == 0 && offsets[|offsets| - 1] == |b|
    && forall i | 0 <= i < |offsets| - 1 :: StepAt(|b|, offsets, i)
  }

  /** The field between two consecutive offsets. */
  function Slice(b: Bytes, offsets: seq<nat>, i: nat): Bytes
    requires i + 1 < |offsets| && StepAt(|b|, offsets, i)
  {
    b[offsets[i]..offsets[i + 1]]
  }

  function Slices(b: Bytes, offsets: seq<nat>): (r: seq<Bytes>)
    requires Bounds(b, offsets)
    ensures |r| == |offsets| - 1 && forall i | 0 <= i < |r| :: r[i] == Slice(b, offsets, i)
  {
    seq(|offsets| - 1, i requires 0 <= i < |offsets| - 1 => assert StepAt(|b|, offsets, i); Slice(b, offsets, i))
  }

  ghost predicate FieldAt(joined: Bytes, parts: seq<Bytes>, offsets: seq<nat>, i: nat)
    requires |offsets| == |parts| + 1 && i < |parts|
  {
    StepAt(|joined|, offsets, i) && Slice(joined, offsets, i) == parts[i]
  }

  lemma FieldStays(front: Bytes, last: Bytes, parts: seq<Bytes>, offsets: seq<nat>, i: nat)
    requires |offsets| == |parts| + 1 && i < |parts| && FieldAt(front, parts, offsets, i)
    ensures FieldAt(front + last, parts, offsets, i)
  {
    assert (front + last)[offsets[i]..offsets[i + 1]] == front[offsets[i]..offsets[i + 1]];
  }

  lemma {:induction false} JoinedAt(parts: seq<Bytes>, offsets: seq<nat>, n: nat)
    requires Fit(parts, offsets) && n <= |parts|
    ensures |Join(parts[..n])| == offsets[n]
    ensures forall i | 0 <= i < n :: FieldAt(Join(parts[..n]), parts, offsets, i)
    decreases n
  {
    if n != 0 {
      JoinedAt(parts, offsets, n - 1);
      var front, last := Join(parts[..n - 1]), parts[n - 1];
      assert parts[..n][..n - 1] == parts[..n - 1];
      assert Join(parts[..n]) == front + last;
      assert PartAt(parts, offsets, n - 1);
      hide Join;
      forall i | 0 <= i < n ensures FieldAt(front + last, parts, offsets, i) {
        if i < n - 1 {
          FieldStays(front, last, parts, offsets, i);
        } else {
          assert (front + last)[offsets[n - 1]..offsets[n]] == last;
        }
      }
    }
  }

  lemma SlicesOfJoin(parts: seq<Bytes>, offsets: seq<nat>)
    requires Fit(parts, offsets)
    ensures Bounds(Join(parts), offsets) && Slices(Join(parts), offsets) == parts
  {
    JoinedAt(parts, offsets, |parts|);
    assert parts[..|parts|] == parts;
    hide Join;
    forall i | 0 <= i < |parts| ensures StepAt(|Join(parts)|, offsets, i) && Slice(Join(parts), offsets, i) == parts[i] {
      assert FieldAt(Join(parts), parts, offsets, i);
    }
  }

  lemma OffsetWithin(b: Bytes, offsets: seq<nat>, n: nat)
    requires Bounds(b, offsets) && n < |offsets|
    ensures offsets[n] <= |b|
  {
    if n != 0 { assert StepAt(|b|, offsets, n - 1); }
  }

  lemma {:induction false} JoinOfSlices(b: Bytes, offsets: seq<nat>, n: nat)
    requires Bounds(b, offsets) && n < |offsets|
    ensures offsets[n] <= |b| && Join(Slices(b, offsets)[..n]) == b[..offsets[n]]
    decreases n
  {
    OffsetWithin(b, offsets, n);
    if n != 0 {
      JoinOfSlices(b, offsets, n - 1);
      var parts := Slices(b, offsets);
      assert parts[..n][..n - 1] == parts[..n - 1];
      assert StepAt(|b|, offsets, n - 1);
      assert parts[n - 1] == Slice(b, offsets, n - 1);
      assert b[..offsets[n - 1]] + b[offsets[n - 1]..offsets[n]] == b[..offsets[n]];
    }
  }

  lemma SlicesFit(b: Bytes, offsets: seq<nat>)
    requires Bounds(b, offsets)
    ensures Fit(Slices(b, offsets), offsets)
  {
    forall i | 0 <= i < |offsets| - 1 ensures PartAt(Slices(b, offsets), offsets, i) { assert StepAt(|b|, offsets, i); }
  }

  // ---- Terms ------------------------------------------------------------------------------------------

  const OFFSETS: seq<nat> := [0, 1, 2, 34, 66, 99, 132, 164, 172, 180, 188, 196, 200, 204]

  lemma OffsetsBound(b: Bytes)
    requires |b| == TERMS_BYTES
    ensures Bounds(b, OFFSETS)
  {
  }

  function Parts(t: Terms): seq<Bytes> {
    [[1], [if t.asset == BTC then 1 else 0], t.session, t.offer, t.maker, t.taker, t.hashlock,
     Big(t.offeredAmount, 8), Big(t.receivedAmount, 8), Big(t.offeredRefund, 8), Big(t.receivedRefund, 8),
     Big(t.offeredConfirmations, 4), Big(t.receivedConfirmations, 4)]
  }

  function Encode(t: Terms): Bytes {
    Join(Parts(t))
  }

  function Build(network: Network, p: seq<Bytes>): Terms
    requires |p| == 13 && |p[1]| == 1
  {
    Terms(network, p[2], p[3], p[4], p[5], p[6], if p[1][0] == 0 then HNS else BTC,
          BigNumber(p[7]), BigNumber(p[8]), BigNumber(p[9]), BigNumber(p[10]), BigNumber(p[11]), BigNumber(p[12]))
  }

  function Decode(b: Bytes, network: Network, point: Bytes -> bool): Result<Terms, Error> {
    if |b| != TERMS_BYTES || b[0] != 1 || b[1] > 1 then Err(InvalidPublication)
    else
      OffsetsBound(b);
      var t := Build(network, Slices(b, OFFSETS));
      if Valid(t, point) then Ok(t) else Err(InvalidAgreement)
  }

  lemma PartsFit(t: Terms)
    requires Sized(t)
    ensures Fit(Parts(t), OFFSETS)
  {
    hide Power;
  }

  lemma BuildOfParts(t: Terms)
    requires Sized(t) && (t.asset == HNS || t.asset == BTC)
    ensures Build(t.network, Parts(t)) == t
  {
    BigRoundTrip(t.offeredAmount, 8);
    BigRoundTrip(t.receivedAmount, 8);
    BigRoundTrip(t.offeredRefund, 8);
    BigRoundTrip(t.receivedRefund, 8);
    BigRoundTrip(t.offeredConfirmations, 4);
    BigRoundTrip(t.receivedConfirmations, 4);
    hide Big; hide BigNumber; hide Power;
  }

  lemma FirstFields(b: Bytes)
    requires |b| == TERMS_BYTES
    ensures Bounds(b, OFFSETS) && Slices(b, OFFSETS)[0] == [b[0]] && Slices(b, OFFSETS)[1] == [b[1]]
  {
    OffsetsBound(b);
    assert Slices(b, OFFSETS)[0] == Slice(b, OFFSETS, 0) && Slices(b, OFFSETS)[1] == Slice(b, OFFSETS, 1);
    assert b[0..1] == [b[0]] && b[1..2] == [b[1]];
  }

  /** Every valid set of terms decodes back to itself. */
  lemma TermsRoundTrip(t: Terms, point: Bytes -> bool)
    requires Sized(t) && Valid(t, point)
    ensures Decode(Encode(t), t.network, point) == Ok(t) && |Encode(t)| == TERMS_BYTES
  {
    ValidAsset(t, point);
    PartsFit(t);
    BuildOfParts(t);
    var parts, b := Parts(t), Encode(t);
    SlicesOfJoin(parts, OFFSETS);
    hide Join; hide Build; hide Valid; hide Sized; hide Big;
    FirstFields(b);
    assert parts[0] == [b[0]] && parts[1] == [b[1]];
  }

  lemma ValidAsset(t: Terms, point: Bytes -> bool)
    requires Valid(t, point)
    ensures t.asset == HNS || t.asset == BTC
  {
  }

  lemma PartsOfBuild(network: Network, p: seq<Bytes>)
    requires Fit(p, OFFSETS) && p[0] == [1] && (p[1] == [0] || p[1] == [1])
    ensures Parts(Build(network, p)) == p && Sized(Build(network, p))
  {
    assert PartAt(p, OFFSETS, 2) && PartAt(p, OFFSETS, 3) && PartAt(p, OFFSETS, 4) && PartAt(p, OFFSETS, 5) && PartAt(p, OFFSETS, 6);
    assert PartAt(p, OFFSETS, 7) && PartAt(p, OFFSETS, 8) && PartAt(p, OFFSETS, 9) && PartAt(p, OFFSETS, 10);
    assert PartAt(p, OFFSETS, 11) && PartAt(p, OFFSETS, 12);
    BigIsCanonical(p[7]);
    BigIsCanonical(p[8]);
    BigIsCanonical(p[9]);
    BigIsCanonical(p[10]);
    BigIsCanonical(p[11]);
    BigIsCanonical(p[12]);
    hide Big; hide BigNumber; hide Power;
  }

  /** Whatever bytes are accepted are the encoding of what they mean. */
  lemma TermsAreCanonical(b: Bytes, network: Network, point: Bytes -> bool)
    requires Decode(b, network, point).Ok?
    ensures var t := Decode(b, network, point).value;
            Encode(t) == b && Sized(t) && Valid(t, point) && t.network == network
  {
    OffsetsBound(b);
    var parts := Slices(b, OFFSETS);
    JoinOfSlices(b, OFFSETS, 13);
    assert parts[..13] == parts && b[..204] == b;
    FirstFields(b);
    SlicesFit(b, OFFSETS);
    PartsOfBuild(network, parts);
    hide Join; hide Valid; hide Build; hide Parts; hide Fit; hide Bounds; hide Slices;
  }

  // ---- The two contracts ------------------------------------------------------------------------------------

  /** Both contracts of a swap share the hashlock, mirror the keys, and lie on different chains; the offered one refunds later. */
  lemma ContractsMirror(t: Terms, point: Bytes -> bool)
    requires Valid(t, point)
    ensures var a, b := HtlcOf(t, Offered), HtlcOf(t, Received);
            && a.hashlock == b.hashlock && a.receiver == b.refund && a.refund == b.receiver && a.receiver != a.refund
            && {a.chain, b.chain} == {Bitcoin, Handshake} && b.refundAt < a.refundAt
  {
  }

  // ---- Frames and marker --------------------------------------------------------------------------------------

  /** The commitment hash, as an injective constructor. */
  datatype Digest = Digest(side: Side, network: Network, encoded: Bytes)

  /** A 37-byte marker: four bytes of magic, the side and the commitment; or something of another length. */
  datatype Marker = Marker(magic: Bytes, side: byte, digest: Digest) | OtherData(bytes: Bytes)

  datatype Publication = Publication(terms: Terms, side: Side, frames: seq<Bytes>, marker: Marker)

  function FrameLimit(chain: ChainId): Result<nat, Error> {
    match chain
    case Bitcoin => Ok(80)
    case Handshake => Ok(40)
    case OtherChain => Err(UnsupportedChain)
  }

  function SideCode(side: Side): byte {
    if side == Offered then 0 else 1
  }

  function FrameCount(payload: nat): nat
    requires payload > 0
  {
    (TERMS_BYTES + payload - 1) / payload
  }

  function Frame(encoded: Bytes, payload: nat, index: nat): Bytes
    requires |encoded| == TERMS_BYTES && 0 < payload && index < FrameCount(payload) <= MAX_FRAMES
    requires (index + 1) * payload < TERMS_BYTES + payload
  {
    FrameRoom(payload, index);
    FRAME_MAGIC + [index, FrameCount(payload)] + encoded[index * payload..Smaller((index + 1) * payload, TERMS_BYTES)]
  }

  lemma FrameRoom(payload: nat, index: nat)
    requires (index + 1) * payload < TERMS_BYTES + payload
    ensures 0 <= index * payload <= Smaller((index + 1) * payload, TERMS_BYTES)
  {
  }

  /** The payload sizes in use: 76 bytes make three frames, 36 bytes six. */
  predicate Payload(p: nat) {
    p == 76 || p == 36
  }

  function Frames(encoded: Bytes, payload: nat): (r: seq<Bytes>)
    requires |encoded| == TERMS_BYTES && Payload(payload)
    ensures |r| == FrameCount(payload) == if payload == 76 then 3 else 6
  {
    seq(FrameCount(payload), i requires 0 <= i < FrameCount(payload) => Frame(encoded, payload, i))
  }

  /** `from_terms`. */
  function FromTerms(t: Terms, side: Side, point: Bytes -> bool): Result<Publication, Error>
    requires Sized(t)
  {
    match FrameLimit(HtlcOf(t, side).chain)
    case Err(e) => Err(e)
    case Ok(limit) =>
      if !Valid(t, point) then Err(InvalidAgreement)
      else
        TermsRoundTrip(t, point);
        Ok(Publication(t, side, Frames(Encode(t), limit - FRAME_HEADER_BYTES),
                       Marker(MARKER_MAGIC, SideCode(side), Digest(side, t.network, Encode(t)))))
  }

  predicate FrameOk(frames: seq<Bytes>, limit: nat, i: nat)
    requires i < |frames|
  {
    var f := frames[i];
    && FRAME_HEADER_BYTES < |f| <= limit && f[..2] == FRAME_MAGIC && f[2] == i && f[3] == |frames|
    && (i + 1 < |frames| ==> |f| == limit)
  }

  /** The payloads of the first `n` frames, if each is in order. */
  function Collected(frames: seq<Bytes>, limit: nat, n: nat): Option<Bytes>
    requires n <= |frames|
    decreases n
  {
    if n == 0 then Some([])
    else
      match Collected(frames, limit, n - 1)
      case None => None
      case Some(b) => if FrameOk(frames, limit, n - 1) then Some(b + frames[n - 1][FRAME_HEADER_BYTES..]) else None
  }

  function SideOf(code: byte): Option<Side> {
    if code == 0 then Some(Offered) else if code == 1 then Some(Received) else None
  }

  /** `SwapRecoveryPublication::decode`. */
  function DecodePublication(network: Network, chain: ChainId, marker: Marker, frames: seq<Bytes>, point: Bytes -> bool)
    : Result<Publication, Error>
  {
    match FrameLimit(chain)
    case Err(e) => Err(e)
    case Ok(limit) =>
      if !marker.Marker? || marker.magic != MARKER_MAGIC || frames == [] || |frames| > MAX_FRAMES || SideOf(marker.side).None?
      then Err(InvalidPublication)
      else
        var side := SideOf(marker.side).value;
        match Collected(frames, limit, |frames|)
        case None => Err(InvalidPublication)
        case Some(encoded) =>
          if marker.digest != Digest(side, network, encoded) then Err(InvalidPublication)
          else
            match Decode(encoded, network, point)
            case Err(e) => Err(e)
            case Ok(t) =>
              TermsAreCanonical(encoded, network, point);
              match FromTerms(t, side, point)
              case Err(e) => Err(e)
              case Ok(p) =>
                if HtlcOf(p.terms, p.side).chain != chain || p.marker != marker || p.frames != frames
                then Err(InvalidPublication) else Ok(p)
  }

  lemma FrameShape(encoded: Bytes, payload: nat, i: nat)
    requires |encoded| == TERMS_BYTES && Payload(payload) && i < FrameCount(payload)
    ensures var frames := Frames(encoded, payload);
            && FrameOk(frames, payload + FRAME_HEADER_BYTES, i)
            && frames[i][FRAME_HEADER_BYTES..] == encoded[i * payload..Smaller((i + 1) * payload, TERMS_BYTES)]
  {
    var f := Frames(encoded, payload)[i];
    var chunk := encoded[i * payload..Smaller((i + 1) * payload, TERMS_BYTES)];
    assert f == FRAME_MAGIC + [i, FrameCount(payload)] + chunk;
    assert f[..2] == FRAME_MAGIC && f[FRAME_HEADER_BYTES..] == chunk;
  }

  lemma {:induction false} FramesCollect(encoded: Bytes, payload: nat, n: nat)
    requires |encoded| == TERMS_BYTES && Payload(payload) && n <= FrameCount(payload)
    ensures Collected(Frames(encoded, payload), payload + FRAME_HEADER_BYTES, n) == Some(encoded[..Smaller(n * payload, TERMS_BYTES)])
    decreases n
  {
    hide Frame; hide FrameOk;
    if n != 0 {
      FramesCollect(encoded, payload, n - 1);
      FrameShape(encoded, payload, n - 1);
      var a, b := (n - 1) * payload, Smaller(n * payload, TERMS_BYTES);
      assert encoded[..a] + encoded[a..b] == encoded[..b];
    }
  }

  lemma FromTermsIs(t: Terms, side: Side, point: Bytes -> bool)
    requires Sized(t) && Valid(t, point)
    ensures |Encode(t)| == TERMS_BYTES && Payload(PayloadOf(t, side))
    ensures FrameLimit(HtlcOf(t, side).chain) == Ok(PayloadOf(t, side) + FRAME_HEADER_BYTES)
    ensures FromTerms(t, side, point) ==
            Ok(Publication(t, side, Frames(Encode(t), PayloadOf(t, side)),
                           Marker(MARKER_MAGIC, SideCode(side), Digest(side, t.network, Encode(t)))))
  {
    TermsRoundTrip(t, point);
    ValidAsset(t, point);
    hide Encode; hide Valid; hide Sized; hide Frames;
  }

  function PayloadOf(t: Terms, side: Side): nat {
    if HtlcOf(t, side).chain == Bitcoin then 76 else 36
  }

  /** Decoding inverts building, for every valid set of terms and either side. */
  lemma DecodeInvertsFromTerms(t: Terms, side: Side, point: Bytes -> bool)
    requires Sized(t) && Valid(t, point)
    ensures FromTerms(t, side, point).Ok?
    ensures var p := FromTerms(t, side, point).value;
            && p.terms == t && p.side == side
            && |p.frames| == (if HtlcOf(t, side).chain == Bitcoin then 3 else 6)
            && DecodePublication(t.network, HtlcOf(t, side).chain, p.marker, p.frames, point) == Ok(p)
  {
    hide Decode; hide Valid; hide Encode; hide Sized; hide Collected; hide Frames; hide FromTerms; hide FrameLimit; hide HtlcOf;
    hide DecodePublication;
    FromTermsIs(t, side, point);
    TermsRoundTrip(t, point);
    FramesWhole(Encode(t), PayloadOf(t, side));
    DecodesTo(HtlcOf(t, side).chain, PayloadOf(t, side) + FRAME_HEADER_BYTES, Encode(t), t, side, point);
  }

  lemma DecodesTo(chain: ChainId, limit: nat, encoded: Bytes, t: Terms, side: Side, point: Bytes -> bool)
    requires Sized(t) && FromTerms(t, side, point).Ok? && FrameLimit(chain) == Ok(limit) && HtlcOf(t, side).chain == chain
    requires Decode(encoded, t.network, point) == Ok(t)
    requires var p := FromTerms(t, side, point).value;
             && p.terms == t && p.side == side && p.frames != [] && |p.frames| <= MAX_FRAMES
             && p.marker == Marker(MARKER_MAGIC, SideCode(side), Digest(side, t.network, encoded))
             && Collected(p.frames, limit, |p.frames|) == Some(encoded)
    ensures var p := FromTerms(t, side, point).value;
            DecodePublication(t.network, chain, p.marker, p.frames, point) == Ok(p)
  {
    hide Decode; hide Sized; hide Collected; hide FromTerms; hide FrameLimit; hide HtlcOf;
  }

  lemma FramesWhole(encoded: Bytes, payload: nat)
    requires |encoded| == TERMS_BYTES && Payload(payload)
    ensures var frames := Frames(encoded, payload);
            && Collected(frames, payload + FRAME_HEADER_BYTES, |frames|) == Some(encoded)
            && frames != [] && |frames| <= MAX_FRAMES
  {
    hide Collected; hide Frame;
    FramesCollect(encoded, payload, FrameCount(payload));
    assert encoded[..TERMS_BYTES] == encoded;
  }

  /** The marker and frames that some valid terms publish on this chain. */
  ghost predicate Published(
    network: Network, chain: ChainId, marker: Marker, frames: seq<Bytes>, point: Bytes -> bool, t: Terms, side: Side)
  {
    && Sized(t) && Valid(t, point) && t.network == network && HtlcOf(t, side).chain == chain
    && FromTerms(t, side, point).Ok?
    && FromTerms(t, side, point).value.marker == marker && FromTerms(t, side, point).value.frames == frames
  }

  /** A marker with a frame list is accepted exactly when some valid terms publish it, and they are what it decodes to. */
  lemma AcceptedIffPublished(network: Network, chain: ChainId, marker: Marker, frames: seq<Bytes>, point: Bytes -> bool)
    ensures var r := DecodePublication(network, chain, marker, frames, point);
            && (r.Ok? <==> exists t, side :: Published(network, chain, marker, frames, point, t, side))
            && (r.Ok? ==> Published(network, chain, marker, frames, point, r.value.terms, r.value.side))
  {
    var r := DecodePublication(network, chain, marker, frames, point);
    if r.Ok? {
      AcceptedIsPublished(network, chain, marker, frames, point);
    }
    if t, side :| Published(network, chain, marker, frames, point, t, side) {
      DecodeInvertsFromTerms(t, side, point);
    }
  }

  lemma AcceptedIsPublished(network: Network, chain: ChainId, marker: Marker, frames: seq<Bytes>, point: Bytes -> bool)
    requires DecodePublication(network, chain, marker, frames, point).Ok?
    ensures var p := DecodePublication(network, chain, marker, frames, point).value;
            Published(network, chain, marker, frames, point, p.terms, p.side)
  {
    var limit := FrameLimit(chain).value;
    var encoded := Collected(frames, limit, |frames|).value;
    TermsAreCanonical(encoded, network, point);
    hide Decode; hide Encode; hide Sized; hide Collected; hide Frames;
  }

  /** One marker commits to one publication: whatever frames come with it, they are the same. */
  lemma MarkerBindsFrames(network: Network, chain: ChainId, marker: Marker, a: seq<Bytes>, b: seq<Bytes>, point: Bytes -> bool)
    requires DecodePublication(network, chain, marker, a, point).Ok? && DecodePublication(network, chain, marker, b, point).Ok?
    ensures a == b
  {
    AcceptedIsPublished(network, chain, marker, a, point);
    AcceptedIsPublished(network, chain, marker, b, point);
    var p, q := DecodePublication(network, chain, marker, a, point).value, DecodePublication(network, chain, marker, b, point).value;
    TermsRoundTrip(p.terms, point);
    TermsRoundTrip(q.terms, point);
    hide DecodePublication; hide Encode; hide Decode; hide Valid; hide Sized;
  }

  // ---- The loops --------------------------------------------------------------------------------------------

  /** `take`: the next `n` bytes, moving the offset past them. */
  method Take(b: Bytes, offset: nat, n: nat) returns (r: Option<Bytes>, next: nat)
    ensures r.Some? <==> offset + n <= |b|
    ensures r.Some? ==> r.value == b[offset..offset + n] && next == offset + n
  {
    if offset + n > |b| { return None, offset; }
    r, next := Some(b[offset..offset + n]), offset + n;
  }

  /** `SwapRecoveryTerms::decode`: takes the fields one after another from an advancing offset. */
  method DecodeTerms(b: Bytes, network: Network, point: Bytes -> bool) returns (r: Result<Terms, Error>)
    ensures r == Decode(b, network, point)
  {
    hide Valid; hide Build;
    if |b| != TERMS_BYTES || b[0] != 1 || b[1] > 1 { return Err(InvalidPublication); }
    OffsetsBound(b);
    ghost var parts := Slices(b, OFFSETS);
    hide Slices;
    var fields: seq<Bytes> := [];
    var offset := 0;
    var i := 0;
    while i < 13
      invariant 0 <= i <= 13
      invariant offset == OFFSETS[i] && fields == parts[..i]
    {
      assert StepAt(|b|, OFFSETS, i);
      var field;
      field, offset := Take(b, offset, OFFSETS[i + 1] - OFFSETS[i]);
      assert field == Some(parts[i]);
      fields := fields + [field.value];
      i := i + 1;
    }
    assert fields == parts;
    var t := Build(network, fields);
    r := if Valid(t, point) then Ok(t) else Err(InvalidAgreement);
  }

  /** The frame loop of the decoder. */
  method CollectFrames(frames: seq<Bytes>, limit: nat) returns (r: Option<Bytes>)
    ensures r == Collected(frames, limit, |frames|)
  {
    hide FrameOk;
    var encoded: Bytes := [];
    var i := 0;
    while i < |frames|
      invariant 0 <= i <= |frames|
      invariant Collected(frames, limit, i) == Some(encoded)
    {
      if !FrameOk(frames, limit, i) {
        CollectFails(frames, limit, i + 1, |frames|);
        return None;
      }
      assert FRAME_HEADER_BYTES < |frames[i]| by { FrameLength(frames, limit, i); }
      encoded := encoded + frames[i][FRAME_HEADER_BYTES..];
      i := i + 1;
    }
    r := Some(encoded);
  }

  lemma FrameLength(frames: seq<Bytes>, limit: nat, i: nat)
    requires i < |frames| && FrameOk(frames, limit, i)
    ensures FRAME_HEADER_BYTES < |frames[i]|
  {
  }

  lemma {:induction false} CollectFails(frames: seq<Bytes>, limit: nat, n: nat, m: nat)
    requires n <= m <= |frames| && Collected(frames, limit, n).None?
    ensures Collected(frames, limit, m).None?
    decreases m
  {
    if n < m { CollectFails(frames, limit, n, m - 1); }
  }
}
