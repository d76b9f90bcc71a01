/**
 The byte layout of cached batches: CompactSize lengths, filter packets framed by
 32-bit little-endian lengths, and vectors of fixed-size items.
 */
module FilterFraming {
  import opened RecordStore

  type byte = n: int | 0 <= n < 256

  type Bytes = seq<byte>

  const MAX_BATCH_BYTES: nat := 8 * 1024 * 1024
  const MAX_FILTERS: nat := 64
  const MAX_HEADERS: nat := 2000
  const U32_LIMIT: nat := 0x1_0000_0000

  // ---- Little-endian numbers ------------------------------------------------------------------

  /** The low `k` bytes of a number, least significant first. */
  function Little(n: nat, k: nat): (r: Bytes)
    ensures |r| == k
  {
    if k == 0 then [] else [n % 256] + Little(n / 256, k - 1)
  }

  function Number(b: Bytes): nat {
    if b == [] then 0 else b[0] + 256 * Number(b[1..])
  }

  function Power(k: nat): (r: nat)
    ensures r > 0
  {
    if k == 0 then 1 else 256 * Power(k - 1)
  }

  lemma {:induction false} NumberOfLittle(n: nat, k: nat)
    requires n < Power(k)
    ensures Number(Little(n, k)) == n
    decreases k
  {
    if k != 0 {
      NumberOfLittle(n / 256, k - 1);
      assert Little(n, k)[1..] == Little(n / 256, k - 1);
    }
  }

  lemma {:induction false} LittleOfNumber(b: Bytes)
    ensures Number(b) < Power(|b|) && Little(Number(b), |b|) == b
  {
    if b != [] {
      LittleOfNumber(b[1..]);
      var rest := Number(b[1..]);
      assert (b[0] + 256 * rest) / 256 == rest && (b[0] + 256 * rest) % 256 == b[0];
      assert b == [b[0]] + b[1..];
    }
  }

  lemma Powers()
    ensures Power(2) == 0x1_0000 && Power(4) == 0x1_0000_0000 && Power(8) == 0x1_0000_0000_0000_0000
  {
    assert Power(1) == 256;
    assert Power(2) == 256 * Power(1);
    assert Power(3) == 256 * Power(2);
    assert Power(4) == 256 * Power(3);
    assert Power(5) == 256 * Power(4);
    assert Power(6) == 256 * Power(5);
    assert Power(7) == 256 * Power(6);
    assert Power(8) == 256 * Power(7);
  }

  // ---- CompactSize ----------------------------------------------------------------------------

  function SizeWidth(n: nat): nat {
    if n < 0xFD then 0 else if n < 0x1_0000 then 2 else if n < 0x1_0000_0000 then 4 else 8
  }

  function SizeTag(n: nat): byte {
    if n < 0xFD then n else if n < 0x1_0000 then 0xFD else if n < 0x1_0000_0000 then 0xFE else 0xFF
  }

  function CompactSize(n: nat): (r: Bytes)
    ensures 1 <= |r| <= 9
  {
    [SizeTag(n)] + Little(n, SizeWidth(n))
  }

  datatype Size = Size(value: nat, used: nat)

  function TagWidth(tag: byte): nat {
    if tag < 0xFD then 0 else if tag == 0xFD then 2 else if tag == 0xFE then 4 else 8
  }

  /** Decodes a length; a longer form than needed is refused. */
  function DecodeSize(b: Bytes): (r: Option<Size>)
    ensures r.Some? ==> r.value.used <= |b|
  {
    if b == [] then None
    else
      var width := TagWidth(b[0]);
      if |b| < 1 + width then None
      else
        var value := if width == 0 then b[0] else Number(b[1..1 + width]);
        if SizeWidth(value) != width then None else Some(Size(value, 1 + width))
  }

  lemma SizeRoundTrip(n: nat, rest: Bytes)
    requires n < 0x1_0000_0000_0000_0000
    ensures DecodeSize(CompactSize(n) + rest) == Some(Size(n, |CompactSize(n)|))
  {
    Powers();
    hide Power; hide Number; hide Little;
    var b, width := CompactSize(n) + rest, SizeWidth(n);
    assert b[0] == SizeTag(n) && TagWidth(b[0]) == width;
    if width != 0 {
      assert b[1..1 + width] == Little(n, width);
      NumberOfLittle(n, width);
    }
  }

  /** What is decoded is the encoding of the value, and nothing else is accepted for it. */
  lemma SizeIsCanonical(b: Bytes)
    requires DecodeSize(b).Some?
    ensures var s := DecodeSize(b).value;
            b[..s.used] == CompactSize(s.value) && s.value < 0x1_0000_0000_0000_0000
  {
    Powers();
    hide Power; hide Number; hide Little;
    var s := DecodeSize(b).value;
    var width := TagWidth(b[0]);
    if width == 0 {
      assert Little(s.value, 0) == [];
      assert b[..1] == [b[0]];
    } else {
      LittleOfNumber(b[1..1 + width]);
      assert b[..1 + width] == [b[0]] + b[1..1 + width];
    }
  }

  // ---- Filter packets ---------------------------------------------------------------------------

  /** The network's cfilter message: a type byte, a 32-byte block hash and the filter. */
  datatype Filter = Filter(kind: byte, hash: Bytes, filter: Bytes)

  predicate WellSized(f: Filter) {
    |f.hash| == 32 && |f.filter| < 0x1_0000_0000_0000_0000
  }

  function Packet(f: Filter): (r: Bytes)
    ensures |r| <= 1 + |f.hash| + 9 + |f.filter|
  {
    [f.kind] + f.hash + CompactSize(|f.filter|) + f.filter
  }

  function DecodePacket(p: Bytes): Option<Filter> {
    if |p| < 33 then None
    else
      var encoded := p[33..];
      match DecodeSize(encoded)
      case None => None
      case Some(s) => if s.value != |encoded| - s.used then None else Some(Filter(p[0], p[1..33], encoded[s.used..]))
  }

  lemma PacketRoundTrip(f: Filter)
    requires WellSized(f)
    ensures DecodePacket(Packet(f)) == Some(f)
  {
    hide DecodeSize; hide CompactSize;
    var p, size := Packet(f), CompactSize(|f.filter|);
    assert p[1..33] == f.hash;
    assert p[33..] == size + f.filter;
    SizeRoundTrip(|f.filter|, f.filter);
    assert (size + f.filter)[|size|..] == f.filter;
  }

  lemma PacketIsCanonical(p: Bytes)
    requires DecodePacket(p).Some?
    ensures Packet(DecodePacket(p).value) == p && WellSized(DecodePacket(p).value)
  {
    hide DecodeSize; hide CompactSize;
    var encoded := p[33..];
    var s := DecodeSize(encoded).value;
    SizeIsCanonical(encoded);
    assert encoded == encoded[..s.used] + encoded[s.used..];
    assert p == [p[0]] + p[1..33] + encoded;
  }

  // ---- Batches of filters ----------------------------------------------------------------------------

  function Framed(p: Bytes): Bytes {
    Little(|p|, 4) + p
  }

  function Frames(fs: seq<Filter>): Bytes {
    if fs == [] then [] else Framed(Packet(fs[0])) + Frames(fs[1..])
  }

  function EncodeBatch(fs: seq<Filter>): Bytes {
    Little(|fs|, 4) + Frames(fs)
  }

  /** The value of a leading 32-bit length. */
  function Length(b: Bytes): Option<int> {
    if |b| < 4 then None else Some(Number(b[..4]))
  }

  /** `n` framed packets that use up the bytes exactly. */
  function DecodeFrames(b: Bytes, n: nat): Option<seq<Filter>>
    decreases n
  {
    if n == 0 then (if b == [] then Some([]) else None)
    else
      match Length(b)
      case None => None
      case Some(len) =>
        if |b| - 4 < len then None
        else
          match DecodePacket(b[4..4 + len])
          case None => None
          case Some(f) =>
            match DecodeFrames(b[4 + len..], n - 1)
            case None => None
            case Some(fs) => Some([f] + fs)
  }

  function DecodeBatch(b: Bytes): Option<seq<Filter>> {
    match Length(b)
    case None => None
    case Some(n) => if n == 0 || n > MAX_FILTERS then None else DecodeFrames(b[4..], n)
  }

  lemma LengthRoundTrip(n: nat, rest: Bytes)
    requires n < U32_LIMIT
    ensures Length(Little(n, 4) + rest) == Some(n)
  {
    Powers();
    NumberOfLittle(n, 4);
    assert (Little(n, 4) + rest)[..4] == Little(n, 4);
  }

  lemma LengthIsCanonical(b: Bytes)
    requires |b| >= 4
    ensures Little(Length(b).value, 4) == b[..4]
  {
    LittleOfNumber(b[..4]);
  }

  predicate Frameable(f: Filter) {
    WellSized(f) && |Packet(f)| < U32_LIMIT
  }

  lemma {:induction false} FramesRoundTrip(fs: seq<Filter>)
    requires forall i | 0 <= i < |fs| :: Frameable(fs[i])
    ensures DecodeFrames(Frames(fs), |fs|) == Some(fs)
    decreases |fs|
  {
    hide Packet; hide DecodePacket; hide Little; hide Number;
    if fs != [] {
      assert Frameable(fs[0]);
      var p, rest := Packet(fs[0]), Frames(fs[1..]);
      var b := Frames(fs);
      assert b == Little(|p|, 4) + (p + rest);
      LengthRoundTrip(|p|, p + rest);
      assert b[4..4 + |p|] == p && b[4 + |p|..] == rest;
      PacketRoundTrip(fs[0]);
      FramesRoundTrip(fs[1..]);
      assert fs == [fs[0]] + fs[1..];
    }
  }

  lemma {:induction false} FramesAreCanonical(b: Bytes, n: nat)
    requires DecodeFrames(b, n).Some?
    ensures var fs := DecodeFrames(b, n).value;
            |fs| == n && Frames(fs) == b && forall i | 0 <= i < n :: WellSized(fs[i])
    decreases n
  {
    hide Packet; hide DecodePacket; hide Little; hide Number; hide WellSized;
    if n != 0 {
      var len := Length(b).value;
      FramesAreCanonical(b[4 + len..], n - 1);
      FrameIsCanonical(b, len);
      var rest := DecodeFrames(b[4 + len..], n - 1).value;
      var f := DecodePacket(b[4..4 + len]).value;
      assert DecodeFrames(b, n) == Some([f] + rest);
      assert ([f] + rest)[1..] == rest;
      hide DecodeFrames; hide Framed;
      assert b == b[..4 + len] + b[4 + len..];
    }
  }

  lemma FrameIsCanonical(b: Bytes, len: nat)
    requires Length(b) == Some(len) && 4 + len <= |b| && DecodePacket(b[4..4 + len]).Some?
    ensures Framed(Packet(DecodePacket(b[4..4 + len]).value)) == b[..4 + len] && WellSized(DecodePacket(b[4..4 + len]).value)
  {
    hide Packet; hide DecodePacket; hide Little; hide Number; hide WellSized;
    PacketIsCanonical(b[4..4 + len]);
    LengthIsCanonical(b);
    assert b[..4 + len] == b[..4] + b[4..4 + len];
  }

  /** Decoding what was encoded gives back the same filters. */
  lemma BatchRoundTrip(fs: seq<Filter>)
    requires 1 <= |fs| <= MAX_FILTERS && forall i | 0 <= i < |fs| :: Frameable(fs[i])
    ensures DecodeBatch(EncodeBatch(fs)) == Some(fs)
  {
    hide Frameable; hide Frames; hide Little;
    LengthRoundTrip(|fs|, Frames(fs));
    assert EncodeBatch(fs)[4..] == Frames(fs);
    FramesRoundTrip(fs);
  }

  /** Whatever is accepted is the encoding of what it decodes to. */
  lemma BatchIsCanonical(b: Bytes)
    requires DecodeBatch(b).Some?
    ensures EncodeBatch(DecodeBatch(b).value) == b && 1 <= |DecodeBatch(b).value| <= MAX_FILTERS
  {
    hide Frames; hide Little;
    var n := Length(b).value;
    FramesAreCanonical(b[4..], n);
    LengthIsCanonical(b);
    assert b == b[..4] + b[4..];
  }

  /** The cursor loop of `decode_filters`. */
  method DecodeFilters(b: Bytes) returns (r: Option<seq<Filter>>)
    ensures r == DecodeBatch(b)
  {
    hide DecodePacket; hide Length;
    var count := Length(b);
    if count.None? { LengthFails(b); return None; }
    if count.value == 0 || count.value > MAX_FILTERS { return None; }
    LengthIsNat(b);
    var n: nat := count.value;
    var rest := b[4..];
    var filters: seq<Filter> := [];
    var i := 0;
    while i < n
      invariant 0 <= i <= n
      invariant DecodeBatch(b) == After(filters, DecodeFrames(rest, n - i))
    {
      var len := Length(rest);
      if len.None? { return None; }
      LengthIsNat(rest);
      if |rest| - 4 < len.value { return None; }
      var f := DecodePacket(rest[4..4 + len.value]);
      if f.None? { return None; }
      AfterOne(filters, f.value, DecodeFrames(rest[4 + len.value..], n - i - 1));
      filters := filters + [f.value];
      rest := rest[4 + len.value..];
      i := i + 1;
    }
    if rest != [] { return None; }
    assert filters + [] == filters;
    r := Some(filters);
  }

  function After(done: seq<Filter>, more: Option<seq<Filter>>): (r: Option<seq<Filter>>)
    ensures done == [] ==> r == more
  {
    if more.None? then None
    else
      assert [] + more.value == more.value;
      Some(done + more.value)
  }

  lemma AfterOne(done: seq<Filter>, f: Filter, more: Option<seq<Filter>>)
    ensures After(done + [f], more) == if more.None? then None else After(done, Some([f] + more.value))
  {
    if more.Some? { assert done + [f] + more.value == done + ([f] + more.value); }
  }

  lemma LengthFails(b: Bytes)
    requires Length(b).None?
    ensures DecodeBatch(b).None?
  {
  }

  lemma LengthIsNat(b: Bytes)
    requires Length(b).Some?
    ensures Length(b).value >= 0 && |b| >= 4
  {
  }

  // ---- Validation -----------------------------------------------------------------------------------

  /** The size bound `validate_batch` adds up. */
  function Bound(fs: seq<Filter>): nat {
    if fs == [] then 4 else |fs[0].filter| + 64 + Bound(fs[1..])
  }

  predicate ValidFilters(fs: seq<Filter>) {
    1 <= |fs| <= MAX_FILTERS && Bound(fs) <= MAX_BATCH_BYTES
  }

  lemma {:induction false} FramesFit(fs: seq<Filter>)
    requires forall i | 0 <= i < |fs| :: |fs[i].hash| == 32
    ensures |Frames(fs)| + 4 <= Bound(fs)
    decreases |fs|
  {
    hide Packet;
    if fs != [] {
      assert |fs[0].hash| == 32;
      FramesFit(fs[1..]);
    }
  }

  /** A batch that passes validation never exceeds the payload limit, and reads back. */
  lemma ValidBatchFits(fs: seq<Filter>)
    requires ValidFilters(fs) && forall i | 0 <= i < |fs| :: |fs[i].hash| == 32
    ensures 0 < |EncodeBatch(fs)| <= MAX_BATCH_BYTES
    ensures DecodeBatch(EncodeBatch(fs)) == Some(fs)
  {
    FramesFit(fs);
    forall i | 0 <= i < |fs| ensures Frameable(fs[i]) {
      BoundIsLarger(fs, i);
    }
    hide Frames; hide Bound;
    BatchRoundTrip(fs);
  }

  lemma {:induction false} BoundIsLarger(fs: seq<Filter>, i: nat)
    requires i < |fs|
    ensures |fs[i].filter| + 64 <= Bound(fs)
    decreases |fs|
  {
    if i != 0 { BoundIsLarger(fs[1..], i - 1); }
  }

  // ---- Vectors of fixed-size items -----------------------------------------------------------------------

  function Flat(items: seq<Bytes>): Bytes {
    if items == [] then [] else items[0] + Flat(items[1..])
  }

  function EncodeItems(items: seq<Bytes>): Bytes {
    CompactSize(|items|) + Flat(items)
  }

  function Cut(b: Bytes, size: nat, n: nat): seq<Bytes>
    requires |b| == n * size
    decreases n
  {
    if n == 0 then [] else
      ItemRoom(size, n);
      [b[..size]] + Cut(b[size..], size, n - 1)
  }

  lemma ItemRoom(size: nat, n: nat)
    requires n > 0
    ensures n * size == size + (n - 1) * size && n * size >= size
  {
  }

  /** A count, then that many items of `size` bytes, then nothing. */
  function DecodeItems(b: Bytes, size: nat): Option<seq<Bytes>> {
    match DecodeSize(b)
    case None => None
    case Some(s) =>
      if |b| - s.used != s.value * size then None else Some(Cut(b[s.used..], size, s.value))
  }

  lemma {:induction false} CutOfFlat(items: seq<Bytes>, size: nat)
    requires forall i | 0 <= i < |items| :: |items[i]| == size
    ensures |Flat(items)| == |items| * size && Cut(Flat(items), size, |items|) == items
    decreases |items|
  {
    if items != [] {
      CutOfFlat(items[1..], size);
      ItemRoom(size, |items|);
      var b := Flat(items);
      assert |items[0]| == size;
      assert b[..size] == items[0] && b[size..] == Flat(items[1..]);
      assert items == [items[0]] + items[1..];
    }
  }

  lemma {:induction false} FlatOfCut(b: Bytes, size: nat, n: nat)
    requires |b| == n * size
    ensures |Cut(b, size, n)| == n && Flat(Cut(b, size, n)) == b
    ensures forall i | 0 <= i < n :: |Cut(b, size, n)[i]| == size
    decreases n
  {
    if n != 0 {
      ItemRoom(size, n);
      FlatOfCut(b[size..], size, n - 1);
      assert Cut(b, size, n)[1..] == Cut(b[size..], size, n - 1);
      assert b == b[..size] + b[size..];
    }
  }

  lemma ItemsRoundTrip(items: seq<Bytes>, size: nat)
    requires |items| < 0x1_0000_0000_0000_0000 && forall i | 0 <= i < |items| :: |items[i]| == size
    ensures DecodeItems(EncodeItems(items), size) == Some(items)
  {
    hide DecodeSize; hide CompactSize;
    CutOfFlat(items, size);
    SizeRoundTrip(|items|, Flat(items));
    assert EncodeItems(items)[|CompactSize(|items|)|..] == Flat(items);
  }

  lemma ItemsAreCanonical(b: Bytes, size: nat)
    requires DecodeItems(b, size).Some?
    ensures EncodeItems(DecodeItems(b, size).value) == b
  {
    hide DecodeSize; hide CompactSize;
    SizeIsCanonical(b);
    var s := DecodeSize(b).value;
    FlatOfCut(b[s.used..], size, s.value);
    assert b == b[..s.used] + b[s.used..];
  }

  // ---- What each stream holds ----------------------------------------------------------------------------

  const HEADER_BYTES: nat := 80
  const HASH_BYTES: nat := 32

  /** A cached batch, by stream: block headers, filter headers behind a fixed prefix, filters. */
  datatype Batch =
    | Headers(items: seq<Bytes>)
    | FilterHeaders(prefix: Bytes, items: seq<Bytes>)
    | Filters(filters: seq<Filter>)

  const PREFIX_BYTES: nat := 65

  function StreamOf(b: Batch): nat {
    match b
    case Headers(_) => 0
    case FilterHeaders(_, _) => 1
    case Filters(_) => 2
  }

  predicate WellTyped(b: Batch) {
    match b
    case Headers(items) => forall i | 0 <= i < |items| :: |items[i]| == HEADER_BYTES
    case FilterHeaders(prefix, items) => |prefix| == PREFIX_BYTES && forall i | 0 <= i < |items| :: |items[i]| == HASH_BYTES
    case Filters(fs) => forall i | 0 <= i < |fs| :: |fs[i].hash| == 32
  }

  /** `validate_batch`. */
  predicate ValidBatch(b: Batch) {
    match b
    case Headers(items) => 1 <= |items| <= MAX_HEADERS
    case FilterHeaders(_, items) => 1 <= |items| <= MAX_HEADERS
    case Filters(fs) => ValidFilters(fs)
  }

  function Serialize(b: Batch): Bytes {
    match b
    case Headers(items) => EncodeItems(items)
    case FilterHeaders(prefix, items) => prefix + EncodeItems(items)
    case Filters(fs) => EncodeBatch(fs)
  }

  /** Decoding for a stream, with the validation that follows it. */
  function Deserialize(stream: nat, b: Bytes): (r: Option<Batch>)
    ensures r.Some? ==> ValidBatch(r.value)
  {
    var decoded :=
      if stream == 0 then
        (match DecodeItems(b, HEADER_BYTES) case None => None case Some(items) => Some(Headers(items)))
      else if stream == 1 then
        (if |b| < PREFIX_BYTES then None
         else
           match DecodeItems(b[PREFIX_BYTES..], HASH_BYTES)
           case None => None
           case Some(items) => Some(FilterHeaders(b[..PREFIX_BYTES], items)))
      else
        (match DecodeBatch(b) case None => None case Some(fs) => Some(Filters(fs)));
    if decoded.Some? && ValidBatch(decoded.value) then decoded else None
  }

  /** Every valid batch serializes within the limit and deserializes to itself. */
  lemma SerializeRoundTrip(b: Batch)
    requires WellTyped(b) && ValidBatch(b)
    ensures 0 < |Serialize(b)| <= MAX_BATCH_BYTES
    ensures Deserialize(StreamOf(b), Serialize(b)) == Some(b)
  {
    hide DecodeItems; hide EncodeBatch; hide DecodeBatch; hide Bound;
    match b
    case Headers(items) =>
      ItemsRoundTrip(items, HEADER_BYTES);
      CutOfFlat(items, HEADER_BYTES);
    case FilterHeaders(prefix, items) =>
      ItemsRoundTrip(items, HASH_BYTES);
      CutOfFlat(items, HASH_BYTES);
      assert Serialize(b)[PREFIX_BYTES..] == EncodeItems(items) && Serialize(b)[..PREFIX_BYTES] == prefix;
    case Filters(fs) =>
      ValidBatchFits(fs);
  }

  /** Whatever a stream accepts is the one serialization of what it means. */
  lemma DeserializeIsCanonical(stream: nat, b: Bytes)
    requires stream < 3 && Deserialize(stream, b).Some?
    ensures Serialize(Deserialize(stream, b).value) == b && StreamOf(Deserialize(stream, b).value) == stream
  {
    hide DecodeItems; hide EncodeItems; hide EncodeBatch; hide DecodeBatch; hide Bound;
    if stream == 0 {
      ItemsAreCanonical(b, HEADER_BYTES);
    } else if stream == 1 {
      ItemsAreCanonical(b[PREFIX_BYTES..], HASH_BYTES);
      assert b == b[..PREFIX_BYTES] + b[PREFIX_BYTES..];
    } else {
      BatchIsCanonical(b);
    }
  }
}
