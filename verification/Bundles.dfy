/**
  Bundles (eth_sendBundle): the normalising decoder, its inverse, and the byte string behind
  a bundle's uuid.
 */
module Bundles {
  import opened Wrappers
  import opened Sorting

  type Bytes = seq<nat>
  type B256 = h: seq<nat> | |h| == 32 witness seq(32, i => 0)
  type Address = a: seq<nat> | |a| == 20 witness seq(20, i => 0)
  type Uuid = nat

  // ---------------------------------------------------------------------------
  // The order of hashes

  predicate LexLeq(a: seq<nat>, b: seq<nat>) {
    a == [] || (b != [] && (a[0] < b[0] || (a[0] == b[0] && LexLeq(a[1..], b[1..]))))
  }

  predicate HashLeq(a: B256, b: B256) {
    LexLeq(a, b)
  }

  lemma {:induction false} LexTotal(a: seq<nat>, b: seq<nat>)
    ensures LexLeq(a, b) || LexLeq(b, a)
    ensures LexLeq(a, b) && LexLeq(b, a) ==> a == b
  {
    if a != [] && b != [] && a[0] == b[0] {
      LexTotal(a[1..], b[1..]);
      assert a == [a[0]] + a[1..] && b == [b[0]] + b[1..];
    }
  }

  lemma {:induction false} LexTransitive(a: seq<nat>, b: seq<nat>, c: seq<nat>)
    requires LexLeq(a, b) && LexLeq(b, c)
    ensures LexLeq(a, c)
  {
    if a != [] && a[0] == b[0] == c[0] {
      LexTransitive(a[1..], b[1..], c[1..]);
    }
  }

  lemma HashOrder()
    ensures TotalOrder(HashLeq)
  {
    forall a: B256, b: B256
      ensures HashLeq(a, b) || HashLeq(b, a)
      ensures HashLeq(a, b) && HashLeq(b, a) ==> a == b
    {
      LexTotal(a, b);
    }
    forall a: B256, b: B256, c: B256 | HashLeq(a, b) && HashLeq(b, c)
      ensures HashLeq(a, c)
    {
      LexTransitive(a, b, c);
    }
  }

  /** The hashes are equal, or the first byte in which they differ is lower in `a`. */
  ghost predicate InOrder(a: B256, b: B256) {
    a == b || exists k :: 0 <= k < 32 && a[..k] == b[..k] && a[k] < b[k]
  }

  lemma {:induction false} LexIsInOrder(a: seq<nat>, b: seq<nat>)
    requires |a| == |b|
    ensures LexLeq(a, b) <==> a == b || exists k :: 0 <= k < |a| && a[..k] == b[..k] && a[k] < b[k]
  {
    if a != [] {
      if a[0] == b[0] {
        LexIsInOrder(a[1..], b[1..]);
        assert a == [a[0]] + a[1..] && b == [b[0]] + b[1..];
        if k :| 0 <= k < |a| && a[..k] == b[..k] && a[k] < b[k] {
          assert k > 0 && a[1..][..k - 1] == a[..k][1..] && b[1..][..k - 1] == b[..k][1..];
          assert a[1..][k - 1] < b[1..][k - 1];
        }
        if k :| 0 <= k < |a| - 1 && a[1..][..k] == b[1..][..k] && a[1..][k] < b[1..][k] {
          assert a[..k + 1] == [a[0]] + a[1..][..k] && b[..k + 1] == [b[0]] + b[1..][..k];
          assert a[k + 1] < b[k + 1];
        }
      } else {
        assert a[..0] == b[..0];
        assert a[0] < b[0] ==> exists k :: 0 <= k < |a| && a[..k] == b[..k] && a[k] < b[k];
        assert forall k :: 0 < k <= |a| && a[..k] == b[..k] ==> a[..k][0] == b[..k][0];
      }
    }
  }

  /** `sorted` has the hashes of `hashes`, in order. */
  ghost predicate IsSorting(hashes: seq<B256>, sorted: seq<B256>) {
    && multiset(sorted) == multiset(hashes)
    && forall i, j :: 0 <= i < j < |sorted| ==> InOrder(sorted[i], sorted[j])
  }

  lemma SortHashesSorts(hashes: seq<B256>)
    ensures IsSorting(hashes, SortHashes(hashes))
  {
    HashOrder();
    SortSorted(HashLeq, hashes);
    var sorted := SortHashes(hashes);
    forall i, j | 0 <= i < j < |sorted|
      ensures InOrder(sorted[i], sorted[j])
    {
      LexIsInOrder(sorted[i], sorted[j]);
    }
  }

  function SortHashes(hashes: seq<B256>): seq<B256> {
    Sort(HashLeq, hashes)
  }

  // ---------------------------------------------------------------------------
  // The uuid preimage

  const U64_MAX: nat := 0xFFFF_FFFF_FFFF_FFFF

  /** Base-128 digits, lowest first, with the high bit on all but the last. */
  function VarInt(n: nat): Bytes {
    if n < 128 then [n] else [n % 128 + 128] + VarInt(n / 128)
  }

  function Concat(hashes: seq<B256>): Bytes {
    if hashes == [] then [] else hashes[0] + Concat(hashes[1..])
  }

  /** The number that base-128 digits make up, lowest first. */
  ghost function Digits(bytes: Bytes): nat {
    if bytes == [] then 0 else bytes[0] % 128 + 128 * Digits(bytes[1..])
  }

  /** A varint holds its number in as few digits as it takes, and only the last is below 128. */
  lemma {:induction false} VarIntDigits(n: nat)
    ensures var bytes := VarInt(n);
            && bytes != [] && Digits(bytes) == n
            && (forall i :: 0 <= i < |bytes| - 1 ==> 128 <= bytes[i] < 256)
            && bytes[|bytes| - 1] < 128 && (|bytes| > 1 ==> bytes[|bytes| - 1] > 0)
  {
    if n >= 128 {
      VarIntDigits(n / 128);
      assert VarInt(n)[1..] == VarInt(n / 128);
    }
  }

  lemma {:induction false} ConcatAt(hashes: seq<B256>, i: nat)
    requires i < |hashes|
    ensures |Concat(hashes)| == 32 * |hashes| && Concat(hashes)[32 * i..32 * i + 32] == hashes[i]
  {
    ConcatLength(hashes);
    if i > 0 {
      ConcatAt(hashes[1..], i - 1);
      assert Concat(hashes)[32 * i..32 * i + 32] == Concat(hashes[1..])[32 * (i - 1)..32 * (i - 1) + 32];
    }
  }

  datatype RefundId = RefundId(percent: nat, recipient: Address, txHash: B256)

  /** What a version 2 uuid is computed from. */
  datatype Identity = Identity(
    block: nat,
    minTimestamp: nat,
    maxTimestamp: nat,
    hash: B256,
    reverting: seq<B256>,
    dropping: seq<B256>,
    refund: Option<RefundId>)

  function RefundBytes(refund: Option<RefundId>): Bytes {
    match refund
    case None => []
    case Some(r) => [r.percent] + r.recipient + VarInt(1) + r.txHash
  }

  function PreimageV2(id: Identity): Bytes {
    VarInt(id.block) + (VarInt(id.minTimestamp) + (VarInt(id.maxTimestamp) +
    (VarInt(|id.reverting|) + (VarInt(|id.dropping|) + (id.hash +
    (Concat(id.reverting) + (Concat(id.dropping) + RefundBytes(id.refund))))))))
  }

  /** No varint is the beginning of another. */
  lemma {:induction false} VarIntPrefixFree(m: nat, n: nat, x: Bytes, y: Bytes)
    requires VarInt(m) + x == VarInt(n) + y
    ensures m == n && x == y
  {
    var a, b := VarInt(m) + x, VarInt(n) + y;
    assert a[0] == VarInt(m)[0] && b[0] == VarInt(n)[0];
    if m < 128 && n < 128 {
      assert a[1..] == x && b[1..] == y;
    } else if m >= 128 && n >= 128 {
      assert a[1..] == VarInt(m / 128) + x && b[1..] == VarInt(n / 128) + y;
      VarIntPrefixFree(m / 128, n / 128, x, y);
    }
  }

  lemma SplitAt(a: Bytes, b: Bytes, x: Bytes, y: Bytes)
    requires |a| == |b| && a + x == b + y
    ensures a == b && x == y
  {
    assert a == (a + x)[..|a|] && b == (b + y)[..|b|];
    assert x == (a + x)[|a|..] && y == (b + y)[|b|..];
  }

  lemma {:induction false} ConcatSplit(s: seq<B256>, t: seq<B256>, x: Bytes, y: Bytes)
    requires |s| == |t| && Concat(s) + x == Concat(t) + y
    ensures s == t && x == y
  {
    if s == [] {
      assert Concat(s) + x == x && Concat(t) + y == y;
    } else {
      assert Concat(s) + x == s[0] + (Concat(s[1..]) + x);
      assert Concat(t) + y == t[0] + (Concat(t[1..]) + y);
      SplitAt(s[0], t[0], Concat(s[1..]) + x, Concat(t[1..]) + y);
      ConcatSplit(s[1..], t[1..], x, y);
      assert s == [s[0]] + s[1..] && t == [t[0]] + t[1..];
    }
  }

  lemma RefundBytesInjective(r: Option<RefundId>, s: Option<RefundId>)
    requires RefundBytes(r) == RefundBytes(s)
    ensures r == s
  {
    if r.Some? && s.Some? {
      var a, b := r.value, s.value;
      var restA, restB := VarInt(1) + a.txHash, VarInt(1) + b.txHash;
      assert RefundBytes(r) == [a.percent] + (a.recipient + restA);
      assert RefundBytes(s) == [b.percent] + (b.recipient + restB);
      SplitAt([a.percent], [b.percent], a.recipient + restA, b.recipient + restB);
      SplitAt(a.recipient, b.recipient, restA, restB);
      VarIntPrefixFree(1, 1, a.txHash, b.txHash);
    }
  }

  /** Equal preimages come from equal identities. */
  lemma PreimageV2Injective(a: Identity, b: Identity)
    requires PreimageV2(a) == PreimageV2(b)
    ensures a == b
  {
    var a8, b8 := RefundBytes(a.refund), RefundBytes(b.refund);
    var a7, b7 := Concat(a.dropping) + a8, Concat(b.dropping) + b8;
    var a6, b6 := Concat(a.reverting) + a7, Concat(b.reverting) + b7;
    var a5, b5 := a.hash + a6, b.hash + b6;
    var a4, b4 := VarInt(|a.dropping|) + a5, VarInt(|b.dropping|) + b5;
    var a3, b3 := VarInt(|a.reverting|) + a4, VarInt(|b.reverting|) + b4;
    var a2, b2 := VarInt(a.maxTimestamp) + a3, VarInt(b.maxTimestamp) + b3;
    var a1, b1 := VarInt(a.minTimestamp) + a2, VarInt(b.minTimestamp) + b2;
    VarIntPrefixFree(a.block, b.block, a1, b1);
    VarIntPrefixFree(a.minTimestamp, b.minTimestamp, a2, b2);
    VarIntPrefixFree(a.maxTimestamp, b.maxTimestamp, a3, b3);
    VarIntPrefixFree(|a.reverting|, |b.reverting|, a4, b4);
    VarIntPrefixFree(|a.dropping|, |b.dropping|, a5, b5);
    SplitAt(a.hash, b.hash, a6, b6);
    ConcatSplit(a.reverting, b.reverting, a7, b7);
    ConcatSplit(a.dropping, b.dropping, a8, b8);
    RefundBytesInjective(a.refund, b.refund);
  }

  lemma {:induction false} ConcatAppend(s: seq<B256>, h: B256)
    ensures Concat(s + [h]) == Concat(s) + h
  {
    if s == [] {
      assert s + [h] == [h];
    } else {
      ConcatAppend(s[1..], h);
      assert (s + [h])[1..] == s[1..] + [h];
    }
  }

  /** Appends the hashes of a list to a buffer, one by one. */
  method AppendHashes(buffer: Bytes, hashes: seq<B256>) returns (r: Bytes)
    ensures r == buffer + Concat(hashes)
  {
    r := buffer;
    for i := 0 to |hashes|
      invariant r == buffer + Concat(hashes[..i])
    {
      ConcatAppend(hashes[..i], hashes[i]);
      assert hashes[..i + 1] == hashes[..i] + [hashes[i]];
      r := r + hashes[i];
    }
    assert hashes[..|hashes|] == hashes;
  }

  /** The parts of the version 2 buffer one after the other. */
  lemma PreimageFlat(id: Identity)
    ensures PreimageV2(id) ==
              VarInt(id.block) + VarInt(id.minTimestamp) + VarInt(id.maxTimestamp) + VarInt(|id.reverting|)
              + VarInt(|id.dropping|) + id.hash + Concat(id.reverting) + Concat(id.dropping) + RefundBytes(id.refund)
  {
    hide VarInt, Concat, RefundBytes;
    var t8 := RefundBytes(id.refund);
    var t7 := Concat(id.dropping) + t8;
    var t6 := Concat(id.reverting) + t7;
    var t5 := id.hash + t6;
    var t4 := VarInt(|id.dropping|) + t5;
    var t3 := VarInt(|id.reverting|) + t4;
    var t2 := VarInt(id.maxTimestamp) + t3;
    var head := VarInt(id.block);
    Associative(head, VarInt(id.minTimestamp), t2);
    head := head + VarInt(id.minTimestamp);
    Associative(head, VarInt(id.maxTimestamp), t3);
    head := head + VarInt(id.maxTimestamp);
    Associative(head, VarInt(|id.reverting|), t4);
    head := head + VarInt(|id.reverting|);
    Associative(head, VarInt(|id.dropping|), t5);
    head := head + VarInt(|id.dropping|);
    Associative(head, id.hash, t6);
    head := head + id.hash;
    Associative(head, Concat(id.reverting), t7);
    head := head + Concat(id.reverting);
    Associative(head, Concat(id.dropping), t8);
  }

  /** Fills the buffer that a version 2 uuid is computed from. */
  method FillBuffer(id: Identity) returns (buffer: Bytes)
    ensures buffer == PreimageV2(id)
  {
    hide VarInt, Concat, RefundBytes, PreimageV2;
    PreimageFlat(id);
    buffer := VarInt(id.block);
    buffer := buffer + VarInt(id.minTimestamp);
    buffer := buffer + VarInt(id.maxTimestamp);
    buffer := buffer + VarInt(|id.reverting|);
    buffer := buffer + VarInt(|id.dropping|);
    buffer := buffer + id.hash;
    buffer := AppendHashes(buffer, id.reverting);
    buffer := AppendHashes(buffer, id.dropping);
    var refund := FillRefund(id.refund);
    buffer := buffer + refund;
  }

  method FillRefund(refund: Option<RefundId>) returns (buffer: Bytes)
    ensures buffer == RefundBytes(refund)
  {
    buffer := [];
    if refund.Some? {
      buffer := buffer + [refund.value.percent];
      buffer := buffer + refund.value.recipient;
      buffer := buffer + VarInt(1);
      buffer := buffer + refund.value.txHash;
    }
  }

  lemma Associative(x: Bytes, y: Bytes, z: Bytes)
    ensures x + (y + z) == (x + y) + z
  {
  }

  /** The block number as a signed 64-bit integer, in zigzag form. */
  function ZigZag(block: nat): nat
    requires block <= U64_MAX
  {
    if block <= U64_MAX / 2 then 2 * block else 2 * (U64_MAX + 1 - block) - 1
  }

  function PreimageV1(block: nat, hash: B256, reverting: seq<B256>): Bytes
    requires block <= U64_MAX
  {
    VarInt(ZigZag(block)) + (hash + Concat(reverting))
  }

  lemma {:induction false} ConcatLength(s: seq<B256>)
    ensures |Concat(s)| == 32 * |s|
  {
    if s != [] {
      ConcatLength(s[1..]);
    }
  }

  lemma PreimageV1Injective(block: nat, hash: B256, reverting: seq<B256>, block': nat, hash': B256,
                            reverting': seq<B256>)
    requires block <= U64_MAX && block' <= U64_MAX
    requires PreimageV1(block, hash, reverting) == PreimageV1(block', hash', reverting')
    ensures block == block' && hash == hash' && reverting == reverting'
  {
    VarIntPrefixFree(ZigZag(block), ZigZag(block'), hash + Concat(reverting), hash' + Concat(reverting'));
    SplitAt(hash, hash', Concat(reverting), Concat(reverting'));
    ConcatLength(reverting);
    ConcatLength(reverting');
    assert Concat(reverting) + [] == Concat(reverting) && Concat(reverting') + [] == Concat(reverting');
    ConcatSplit(reverting, reverting', [], []);
  }

  // ---------------------------------------------------------------------------
  // Bundles

  /** The foreign transaction codec and hashes. `decode` is decoding in the encoding at hand, with or without
      signer lookup; `decodeNoBlobs` undoes `encode`. */
  datatype TxCodec<!T> = TxCodec(
    decode: Bytes -> Result<T, string>,
    decodeNoBlobs: Bytes -> Result<T, string>,
    encode: T -> Bytes,
    hash: T -> B256,
    signer: T -> Address,
    keccak: Bytes -> B256,
    uuidOf: Bytes -> Uuid)

  datatype Version = V1 | V2

  datatype BundleRefund = BundleRefund(percent: nat, recipient: Address, txHash: B256, delayed: bool)

  datatype ReplacementKey = ReplacementKey(id: Uuid, signer: Option<Address>)

  datatype ReplacementData = ReplacementData(key: ReplacementKey, sequenceNumber: nat)

  datatype Bundle<T> = Bundle(
    version: Version,
    block: Option<nat>,
    minTimestamp: Option<nat>,
    maxTimestamp: Option<nat>,
    txs: seq<T>,
    reverting: seq<B256>,
    dropping: seq<B256>,
    hash: B256,
    uuid: Uuid,
    replacementData: Option<ReplacementData>,
    signer: Option<Address>,
    refundIdentity: Option<Address>,
    refund: Option<BundleRefund>,
    externalHash: Option<B256>)

  function OrElse<X>(o: Option<X>, default: X): X {
    if o.Some? then o.value else default
  }

  function TxHashes<T>(hash: T -> B256, txs: seq<T>): seq<B256> {
    if txs == [] then [] else [hash(txs[0])] + TxHashes(hash, txs[1..])
  }

  function IdentityOf<T>(b: Bundle<T>, hash: B256): Identity {
    Identity(
      OrElse(b.block, 0), OrElse(b.minTimestamp, 0), OrElse(b.maxTimestamp, U64_MAX), hash,
      SortHashes(b.reverting), SortHashes(b.dropping),
      if b.refund.None? then None
      else Some(RefundId(b.refund.value.percent, b.refund.value.recipient, b.refund.value.txHash)))
  }

  function Preimage<T>(b: Bundle<T>, hash: B256): Bytes {
    match b.version
    case V1 => PreimageV1(OrElse(b.block, 0) % (U64_MAX + 1), hash, SortHashes(b.reverting))
    case V2 => PreimageV2(IdentityOf(b, hash))
  }

  /** Recomputes hash and uuid, sorting the hash lists that the uuid is made of. */
  function HashSlow<T>(c: TxCodec<T>, b: Bundle<T>): Bundle<T> {
    var hash := c.keccak(Concat(TxHashes(c.hash, b.txs)));
    b.(hash := hash,
       uuid := c.uuidOf(Preimage(b, hash)),
       reverting := SortHashes(b.reverting),
       dropping := if b.version == V2 then SortHashes(b.dropping) else b.dropping)
  }

  // ---------------------------------------------------------------------------
  // Decoding

  datatype RawMetadata = RawMetadata(
    version: Option<string>,
    blockNumber: Option<nat>,
    reverting: seq<B256>,
    dropping: seq<B256>,
    replacementUuid: Option<Uuid>,
    uuid: Option<Uuid>,
    signingAddress: Option<Address>,
    refundIdentity: Option<Address>,
    minTimestamp: Option<nat>,
    maxTimestamp: Option<nat>,
    replacementNonce: Option<nat>,
    refundPercent: Option<nat>,
    refundRecipient: Option<Address>,
    refundTxHashes: Option<seq<B256>>,
    delayedRefund: Option<bool>,
    bundleHash: Option<B256>)

  datatype RawBundle = RawBundle(metadata: RawMetadata, txs: seq<Bytes>)

  datatype Decoded<T> = NewBundle(bundle: Bundle<T>) | CancelBundle(data: ReplacementData)

  datatype Error =
    | FailedToDecodeTransaction(index: nat, reason: string)
    | IncorrectReplacementData
    | InvalidRefundPercent(percent: nat)
    | EmptyBundle
    | UnsupportedVersion(version: string)
    | FieldNotSupportedByVersion(field: string)
    | MoreThanOneRefundTxHash

  /** `uuid` takes priority over `replacementUuid`, and either needs a nonce and a signer. */
  function DecodeReplacement(m: RawMetadata): Result<Option<ReplacementData>, Error> {
    var uuid := if m.uuid.Some? then m.uuid else m.replacementUuid;
    if uuid.None? then Ok(None)
    else if m.replacementNonce.None? || m.signingAddress.None? then Err(IncorrectReplacementData)
    else Ok(Some(ReplacementData(ReplacementKey(uuid.value, m.signingAddress), m.replacementNonce.value)))
  }

  const VERSION_V1 := "v1"
  const VERSION_V2 := "v2"

  function DecodeVersion(m: RawMetadata): Result<Version, Error> {
    match m.version
    case None => Ok(V2)
    case Some(v) =>
      if v == VERSION_V1 then Ok(V1) else if v == VERSION_V2 then Ok(V2) else Err(UnsupportedVersion(v))
  }

  function EncodeVersion(v: Version): string {
    if v == V1 then VERSION_V1 else VERSION_V2
  }

  function ValidateFields(m: RawMetadata, version: Version): Option<Error> {
    if version == V2 then None
    else if m.dropping != [] then Some(FieldNotSupportedByVersion("dropping_tx_hashes"))
    else if m.refundPercent.Some? then Some(FieldNotSupportedByVersion("refund_percent"))
    else if m.refundRecipient.Some? then Some(FieldNotSupportedByVersion("refund_recipient"))
    else if m.refundTxHashes.Some? then Some(FieldNotSupportedByVersion("refund_tx_hashes"))
    else if m.delayedRefund.Some? then Some(FieldNotSupportedByVersion("delayed_refund"))
    else None
  }

  /** Decodes transactions `from` and on; a failure reports its place in the list. */
  function DecodeTxs<T>(c: TxCodec<T>, txs: seq<Bytes>, from: nat): Result<seq<T>, Error> {
    if txs == [] then Ok([])
    else
      match c.decode(txs[0])
      case Err(e) => Err(FailedToDecodeTransaction(from, e))
      case Ok(tx) =>
        match DecodeTxs(c, txs[1..], from + 1)
        case Err(e) => Err(e)
        case Ok(rest) => Ok([tx] + rest)
  }

  /** A percentage of zero counts as none; the refund defaults to the last transaction and the first signer. */
  function ParseRefund<T>(c: TxCodec<T>, m: RawMetadata, txs: seq<T>): Result<Option<BundleRefund>, Error> {
    if m.refundPercent.Some? && m.refundPercent.value >= 100 then Err(InvalidRefundPercent(m.refundPercent.value))
    else if m.refundPercent.None? || m.refundPercent.value == 0 || txs == [] then Ok(None)
    else if m.refundTxHashes.Some? && |m.refundTxHashes.value| > 1 then Err(MoreThanOneRefundTxHash)
    else
      var txHash := if m.refundTxHashes.Some? && m.refundTxHashes.value != [] then m.refundTxHashes.value[0]
                    else c.hash(txs[|txs| - 1]);
      Ok(Some(BundleRefund(m.refundPercent.value, OrElse(m.refundRecipient, c.signer(txs[0])), txHash,
                           OrElse(m.delayedRefund, false))))
  }

  function Assemble<T>(c: TxCodec<T>, m: RawMetadata, version: Version, replacement: Option<ReplacementData>,
                       txs: seq<T>, refund: Option<BundleRefund>): Bundle<T>
  {
    HashSlow(c, Bundle(
      version,
      if OrElse(m.blockNumber, 0) != 0 then m.blockNumber else None,
      m.minTimestamp,
      if m.maxTimestamp == Some(0) then None else m.maxTimestamp,
      txs, SortHashes(m.reverting), SortHashes(m.dropping),
      c.keccak([]), c.uuidOf([]), replacement, m.signingAddress, m.refundIdentity, refund, m.bundleHash))
  }

  function Decode<T>(c: TxCodec<T>, raw: RawBundle): Result<Decoded<T>, Error> {
    var m := raw.metadata;
    match DecodeReplacement(m)
    case Err(e) => Err(e)
    case Ok(replacement) =>
      if raw.txs == [] then
        if replacement.Some? then Ok(CancelBundle(replacement.value)) else Err(EmptyBundle)
      else
        match DecodeVersion(m)
        case Err(e) => Err(e)
        case Ok(version) =>
          if ValidateFields(m, version).Some? then Err(ValidateFields(m, version).value)
          else
            match DecodeTxs(c, raw.txs, 0)
            case Err(e) => Err(e)
            case Ok(txs) =>
              match ParseRefund(c, m, txs)
              case Err(e) => Err(e)
              case Ok(refund) => Ok(NewBundle(Assemble(c, m, version, replacement, txs, refund)))
  }

  // ---------------------------------------------------------------------------
  // What decoding means, by the raw fields

  /** There is a replacement uuid but no nonce or signer to go with it. */
  ghost predicate BadKey(m: RawMetadata) {
    (m.uuid.Some? || m.replacementUuid.Some?) && (m.replacementNonce.None? || m.signingAddress.None?)
  }

  ghost predicate IsKey(m: RawMetadata, data: Option<ReplacementData>) {
    match data
    case None => m.uuid.None? && m.replacementUuid.None?
    case Some(d) =>
      && Some(d.key.id) == (if m.uuid.Some? then m.uuid else m.replacementUuid)
      && d.key.signer == m.signingAddress && d.key.signer.Some?
      && Some(d.sequenceNumber) == m.replacementNonce
  }

  /** The first field in use that version 1 does not have. */
  ghost predicate IsForeign(m: RawMetadata, field: string) {
    if m.dropping != [] then field == "dropping_tx_hashes"
    else if m.refundPercent.Some? then field == "refund_percent"
    else if m.refundRecipient.Some? then field == "refund_recipient"
    else if m.refundTxHashes.Some? then field == "refund_tx_hashes"
    else m.delayedRefund.Some? && field == "delayed_refund"
  }

  /** The replacement data, the version and its fields are in order, and there are transactions. */
  ghost predicate HeaderOk(raw: RawBundle) {
    var m := raw.metadata;
    && !BadKey(m) && raw.txs != []
    && (|| m.version == None
        || m.version == Some("v2")
        || (m.version == Some("v1") && m.dropping == [] && m.refundPercent.None? && m.refundRecipient.None?
            && m.refundTxHashes.None? && m.delayedRefund.None?))
  }

  ghost predicate AllDecode<T>(c: TxCodec<T>, raws: seq<Bytes>) {
    forall i :: 0 <= i < |raws| ==> c.decode(raws[i]).Ok?
  }

  ghost predicate IsRefund<T>(c: TxCodec<T>, m: RawMetadata, txs: seq<T>, refund: Option<BundleRefund>)
    requires txs != []
  {
    match refund
    case None => m.refundPercent.None? || m.refundPercent.value == 0
    case Some(r) =>
      && m.refundPercent == Some(r.percent) && 0 < r.percent < 100
      && r.recipient == (if m.refundRecipient.Some? then m.refundRecipient.value else c.signer(txs[0]))
      && r.txHash == (if m.refundTxHashes.Some? && m.refundTxHashes.value != [] then m.refundTxHashes.value[0]
                      else c.hash(txs[|txs| - 1]))
      && r.delayed == (m.delayedRefund == Some(true))
  }

  /** Every outcome of parsing a refund, with its exact condition. */
  ghost predicate RefundMeans<T>(c: TxCodec<T>, m: RawMetadata, txs: seq<T>, r: Result<Option<BundleRefund>, Error>) {
    match r
    case Err(error) =>
      || (error.InvalidRefundPercent? && m.refundPercent == Some(error.percent) && error.percent >= 100)
      || (error == MoreThanOneRefundTxHash && txs != [] && m.refundPercent.Some? && 0 < m.refundPercent.value < 100
          && m.refundTxHashes.Some? && |m.refundTxHashes.value| > 1)
    case Ok(refund) =>
      && (m.refundPercent.Some? ==> m.refundPercent.value < 100)
      && (if txs == [] then refund == None else IsRefund(c, m, txs, refund))
      && (refund.Some? && m.refundTxHashes.Some? ==> |m.refundTxHashes.value| <= 1)
  }

  /** The hash is over the hashes of the transactions, and the uuid over the buffer of the version at hand. */
  ghost predicate IsHashed<T>(c: TxCodec<T>, b: Bundle<T>) {
    && (exists hashes: seq<B256> ::
          && |hashes| == |b.txs| && (forall i :: 0 <= i < |b.txs| ==> hashes[i] == c.hash(b.txs[i]))
          && b.hash == c.keccak(Concat(hashes)))
    && match b.version
       case V1 =>
         var block := (if b.block.Some? then b.block.value else 0) % 0x1_0000_0000_0000_0000;
         var signed := if block < 0x8000_0000_0000_0000 then 2 * block else 2 * (0x1_0000_0000_0000_0000 - block) - 1;
         b.uuid == c.uuidOf(VarInt(signed) + b.hash + Concat(b.reverting))
       case V2 =>
         b.uuid == c.uuidOf(
           VarInt(if b.block.Some? then b.block.value else 0)
           + VarInt(if b.minTimestamp.Some? then b.minTimestamp.value else 0)
           + VarInt(if b.maxTimestamp.Some? then b.maxTimestamp.value else 0xFFFF_FFFF_FFFF_FFFF)
           + VarInt(|b.reverting|) + VarInt(|b.dropping|) + b.hash + Concat(b.reverting) + Concat(b.dropping)
           + (if b.refund.None? then []
              else [b.refund.value.percent] + b.refund.value.recipient + [1] + b.refund.value.txHash))
  }

  /** The fields of a decoded bundle. */
  ghost predicate IsBundle<T>(c: TxCodec<T>, raw: RawBundle, b: Bundle<T>) {
    var m := raw.metadata;
    && (b.version == V1 <==> m.version == Some("v1"))
    && |b.txs| == |raw.txs| > 0 && (forall i :: 0 <= i < |b.txs| ==> c.decode(raw.txs[i]) == Ok(b.txs[i]))
    && b.block == (if m.blockNumber == Some(0) then None else m.blockNumber)
    && b.minTimestamp == m.minTimestamp
    && b.maxTimestamp == (if m.maxTimestamp == Some(0) then None else m.maxTimestamp)
    && b.signer == m.signingAddress && b.refundIdentity == m.refundIdentity && b.externalHash == m.bundleHash
    && IsSorting(m.reverting, b.reverting) && IsSorting(m.dropping, b.dropping)
    && IsKey(m, b.replacementData) && IsRefund(c, m, b.txs, b.refund) && IsHashed(c, b)
  }

  /** Every outcome of decoding, with its exact condition. */
  ghost predicate Means<T>(c: TxCodec<T>, raw: RawBundle, r: Result<Decoded<T>, Error>) {
    var m := raw.metadata;
    match r
    case Err(IncorrectReplacementData) => BadKey(m)
    case Err(EmptyBundle) => raw.txs == [] && IsKey(m, None)
    case Ok(CancelBundle(data)) => raw.txs == [] && IsKey(m, Some(data))
    case Err(UnsupportedVersion(v)) => !BadKey(m) && raw.txs != [] && m.version == Some(v) && v != "v1" && v != "v2"
    case Err(FieldNotSupportedByVersion(field)) =>
      !BadKey(m) && raw.txs != [] && m.version == Some("v1") && IsForeign(m, field)
    case Err(FailedToDecodeTransaction(i, e)) =>
      HeaderOk(raw) && i < |raw.txs| && c.decode(raw.txs[i]) == Err(e) && AllDecode(c, raw.txs[..i])
    case Err(InvalidRefundPercent(p)) =>
      HeaderOk(raw) && AllDecode(c, raw.txs) && m.refundPercent == Some(p) && p >= 100
    case Err(MoreThanOneRefundTxHash) =>
      && HeaderOk(raw) && AllDecode(c, raw.txs) && m.refundPercent.Some? && 0 < m.refundPercent.value < 100
      && m.refundTxHashes.Some? && |m.refundTxHashes.value| > 1
    case Ok(NewBundle(b)) =>
      && HeaderOk(raw) && IsBundle(c, raw, b)
      && (b.refund.Some? && m.refundTxHashes.Some? ==> |m.refundTxHashes.value| <= 1)
  }

  /** The transactions decoded one for one, or the place of the first that does not decode, counted from `from`. */
  ghost predicate TxsMean<T>(c: TxCodec<T>, raws: seq<Bytes>, from: nat, r: Result<seq<T>, Error>) {
    match r
    case Ok(txs) => |txs| == |raws| && forall i :: 0 <= i < |raws| ==> c.decode(raws[i]) == Ok(txs[i])
    case Err(error) =>
      && error.FailedToDecodeTransaction? && from <= error.index < from + |raws|
      && c.decode(raws[error.index - from]) == Err(error.reason) && AllDecode(c, raws[..error.index - from])
  }

  lemma {:induction false} DecodeTxsMeans<T>(c: TxCodec<T>, raws: seq<Bytes>, from: nat)
    ensures TxsMean(c, raws, from, DecodeTxs(c, raws, from))
  {
    if raws != [] {
      DecodeTxsMeans(c, raws[1..], from + 1);
      var rest := DecodeTxs(c, raws[1..], from + 1);
      if c.decode(raws[0]).Ok? && rest.Err? {
        var k := rest.error.index - from - 1;
        assert raws[..k + 1] == [raws[0]] + raws[1..][..k];
      }
    }
  }

  lemma {:induction false} TxHashesAre<T>(hash: T -> B256, txs: seq<T>)
    ensures |TxHashes(hash, txs)| == |txs| && forall i :: 0 <= i < |txs| ==> TxHashes(hash, txs)[i] == hash(txs[i])
  {
    if txs != [] {
      TxHashesAre(hash, txs[1..]);
    }
  }

  lemma PreimageV2Is<T>(b: Bundle<T>, hash: B256)
    requires b.version == V2
    ensures Preimage(b, hash) ==
              VarInt(if b.block.Some? then b.block.value else 0)
              + VarInt(if b.minTimestamp.Some? then b.minTimestamp.value else 0)
              + VarInt(if b.maxTimestamp.Some? then b.maxTimestamp.value else 0xFFFF_FFFF_FFFF_FFFF)
              + VarInt(|SortHashes(b.reverting)|) + VarInt(|SortHashes(b.dropping)|) + hash
              + Concat(SortHashes(b.reverting)) + Concat(SortHashes(b.dropping))
              + (if b.refund.None? then []
                 else [b.refund.value.percent] + b.refund.value.recipient + [1] + b.refund.value.txHash)
  {
    assert VarInt(1) == [1];
    hide VarInt, Concat, SortHashes, PreimageV2;
    PreimageFlat(IdentityOf(b, hash));
  }

  lemma PreimageV1Is<T>(b: Bundle<T>, hash: B256)
    requires b.version == V1
    ensures var block := (if b.block.Some? then b.block.value else 0) % 0x1_0000_0000_0000_0000;
            var signed := if block < 0x8000_0000_0000_0000 then 2 * block
                          else 2 * (0x1_0000_0000_0000_0000 - block) - 1;
            Preimage(b, hash) == VarInt(signed) + hash + Concat(SortHashes(b.reverting))
  {
    hide VarInt, Concat, SortHashes;
    var rest := Concat(SortHashes(b.reverting));
    assert forall x: Bytes :: x + (hash + rest) == x + hash + rest;
  }

  /** Hashing a bundle, whatever its lists: they come out sorted, except that version 1 leaves the dropping list alone,
      and hash and uuid are computed anew. */
  lemma HashSlowHashes<T>(c: TxCodec<T>, b: Bundle<T>)
    ensures var r := HashSlow(c, b);
            && IsHashed(c, r)
            && r == b.(hash := r.hash, uuid := r.uuid, reverting := r.reverting, dropping := r.dropping)
            && IsSorting(b.reverting, r.reverting)
            && (if b.version == V2 then IsSorting(b.dropping, r.dropping) else r.dropping == b.dropping)
    ensures SortHashes(b.reverting) == b.reverting ==> HashSlow(c, b).reverting == b.reverting
    ensures SortHashes(b.dropping) == b.dropping ==> HashSlow(c, b).dropping == b.dropping
  {
    hide Concat, SortHashes, VarInt, TxHashes, Preimage, IsSorting;
    SortHashesSorts(b.reverting);
    SortHashesSorts(b.dropping);
    TxHashesAre(c.hash, b.txs);
    var r := HashSlow(c, b);
    assert r.hash == c.keccak(Concat(TxHashes(c.hash, b.txs)));
    if b.version == V1 {
      PreimageV1Is(b, r.hash);
    } else {
      PreimageV2Is(b, r.hash);
    }
  }

  lemma AssembledIs<T>(c: TxCodec<T>, raw: RawBundle, version: Version, replacement: Option<ReplacementData>,
                       txs: seq<T>, refund: Option<BundleRefund>)
    requires var m := raw.metadata;
             && (version == V1 <==> m.version == Some("v1")) && IsKey(m, replacement)
             && |txs| == |raw.txs| > 0 && (forall i :: 0 <= i < |txs| ==> c.decode(raw.txs[i]) == Ok(txs[i]))
             && IsRefund(c, m, txs, refund)
    ensures var b := Assemble(c, raw.metadata, version, replacement, txs, refund);
            IsBundle(c, raw, b) && b.refund == refund
  {
    hide HashSlow, IsHashed, IsSorting, IsKey, IsRefund, SortHashes;
    var m := raw.metadata;
    SortHashesSorts(m.reverting);
    SortHashesSorts(m.dropping);
    SortHashesTwice(m.reverting);
    SortHashesTwice(m.dropping);
    HashSlowHashes(c, Bundle(
      version,
      if OrElse(m.blockNumber, 0) != 0 then m.blockNumber else None,
      m.minTimestamp,
      if m.maxTimestamp == Some(0) then None else m.maxTimestamp,
      txs, SortHashes(m.reverting), SortHashes(m.dropping),
      c.keccak([]), c.uuidOf([]), replacement, m.signingAddress, m.refundIdentity, refund, m.bundleHash));
  }

  /** Decoding means what it should. */
  lemma DecodeMeans<T>(c: TxCodec<T>, raw: RawBundle)
    ensures Means(c, raw, Decode(c, raw))
  {
    hide Assemble, IsBundle, DecodeTxs;
    DecodeTxsMeans(c, raw.txs, 0);
    var m := raw.metadata;
    var txs := DecodeTxs(c, raw.txs, 0);
    if Decode(c, raw).Ok? && raw.txs != [] {
      AssembledIs(c, raw, DecodeVersion(m).value, DecodeReplacement(m).value, txs.value,
                  ParseRefund(c, m, txs.value).value);
    }
  }

  // ---------------------------------------------------------------------------
  // Encoding

  function Encode<T>(c: TxCodec<T>, b: Bundle<T>): RawBundle {
    var uuid := if b.replacementData.Some? then Some(b.replacementData.value.key.id) else None;
    var nonce := if b.replacementData.Some? then Some(b.replacementData.value.sequenceNumber) else None;
    var signer := if b.signer.Some? then b.signer
                  else if b.replacementData.Some? then b.replacementData.value.key.signer else None;
    RawBundle(
      RawMetadata(
        Some(EncodeVersion(b.version)), b.block, b.reverting, b.dropping, uuid, uuid, signer, b.refundIdentity,
        b.minTimestamp, b.maxTimestamp, nonce,
        if b.refund.Some? then Some(b.refund.value.percent) else None,
        if b.refund.Some? then Some(b.refund.value.recipient) else None,
        if b.refund.Some? then Some([b.refund.value.txHash]) else None,
        if b.refund.Some? then Some(b.refund.value.delayed) else None,
        b.externalHash),
      EncodeTxs(c, b.txs))
  }

  function EncodeTxs<T>(c: TxCodec<T>, txs: seq<T>): seq<Bytes> {
    seq(|txs|, i requires 0 <= i < |txs| => c.encode(txs[i]))
  }

  /** The same codec, decoding without blobs. */
  function NoBlobs<T>(c: TxCodec<T>): TxCodec<T> {
    c.(decode := c.decodeNoBlobs)
  }

  ghost predicate RoundTrips<T>(c: TxCodec<T>, txs: seq<T>) {
    forall i :: 0 <= i < |txs| ==> c.decodeNoBlobs(c.encode(txs[i])) == Ok(txs[i])
  }

  lemma {:induction false} EncodeThenDecodeTxs<T>(c: TxCodec<T>, txs: seq<T>, from: nat)
    requires RoundTrips(c, txs)
    ensures DecodeTxs(NoBlobs(c), EncodeTxs(c, txs), from) == Ok(txs)
  {
    if txs != [] {
      EncodeThenDecodeTxs(c, txs[1..], from + 1);
      assert EncodeTxs(c, txs)[1..] == EncodeTxs(c, txs[1..]);
      assert [txs[0]] + txs[1..] == txs;
    }
  }

  lemma {:induction false} DecodeTxsLength<T>(c: TxCodec<T>, txs: seq<Bytes>, from: nat)
    requires DecodeTxs(c, txs, from).Ok?
    ensures |DecodeTxs(c, txs, from).value| == |txs|
  {
    if txs != [] {
      DecodeTxsLength(c, txs[1..], from + 1);
    }
  }

  lemma SortHashesTwice(hashes: seq<B256>)
    ensures SortHashes(SortHashes(hashes)) == SortHashes(hashes)
  {
    HashOrder();
    SortIdempotent(HashLeq, hashes);
  }

  lemma SortNothing()
    ensures SortHashes([]) == []
  {
  }

  /** A decoded bundle, encoded and decoded again, is the same bundle. */
  lemma BundleNormalForm<T>(c: TxCodec<T>, raw: RawBundle, b: Bundle<T>)
    requires Decode(c, raw) == Ok(NewBundle(b)) && RoundTrips(c, b.txs)
    ensures Decode(NoBlobs(c), Encode(c, b)) == Ok(NewBundle(b))
  {
    hide Sort, VarInt, PreimageV1, PreimageV2, Concat, TxHashes;
    var raw' := Encode(c, b);
    DecodeTxsLength(c, raw.txs, 0);
    EncodeThenDecodeTxs(c, b.txs, 0);
    SortHashesTwice(raw.metadata.reverting);
    SortHashesTwice(raw.metadata.dropping);
    SortNothing();
    assert b.reverting == SortHashes(raw.metadata.reverting) && b.dropping == SortHashes(raw.metadata.dropping);
    assert DecodeReplacement(raw'.metadata) == Ok(b.replacementData);
    assert DecodeVersion(raw'.metadata) == Ok(b.version);
    assert ValidateFields(raw'.metadata, b.version).None?;
    assert ParseRefund(NoBlobs(c), raw'.metadata, b.txs) == Ok(b.refund);
    assert Assemble(NoBlobs(c), raw'.metadata, b.version, b.replacementData, b.txs, b.refund) == b;
  }

  /** Neither the decoded bundle nor its uuid depends on the order of the raw hash lists. */
  lemma HashOrderIrrelevant<T>(c: TxCodec<T>, raw: RawBundle, reverting: seq<B256>, dropping: seq<B256>)
    requires multiset(reverting) == multiset(raw.metadata.reverting)
    requires multiset(dropping) == multiset(raw.metadata.dropping)
    ensures Decode(c, raw.(metadata := raw.metadata.(reverting := reverting, dropping := dropping))) == Decode(c, raw)
  {
    hide HashSlow, TotalOrder, Sort, DecodeTxs;
    HashOrder();
    SortPermutation(HashLeq, reverting, raw.metadata.reverting);
    SortPermutation(HashLeq, dropping, raw.metadata.dropping);
    assert |dropping| == |multiset(dropping)| == |raw.metadata.dropping|;
    var m, m' := raw.metadata, raw.metadata.(reverting := reverting, dropping := dropping);
    assert DecodeReplacement(m') == DecodeReplacement(m) && DecodeVersion(m') == DecodeVersion(m);
    assert forall version :: ValidateFields(m', version) == ValidateFields(m, version);
    assert forall txs :: ParseRefund(c, m', txs) == ParseRefund(c, m, txs);
  }

  /** Moving a hash from one list to the other always changes the preimage. */
  lemma MovingAHashChangesPreimage<T>(b: Bundle<T>, hash: B256, h: B256, reverting: seq<B256>, dropping: seq<B256>)
    requires b.version == V2 && h in b.reverting
    requires multiset(reverting) == multiset(b.reverting) - multiset{h}
    requires multiset(dropping) == multiset(b.dropping) + multiset{h}
    ensures Preimage(b.(reverting := reverting, dropping := dropping), hash) != Preimage(b, hash)
  {
    var moved := b.(reverting := reverting, dropping := dropping);
    HashOrder();
    SortSorted(HashLeq, reverting);
    SortSorted(HashLeq, b.reverting);
    assert IdentityOf(moved, hash).reverting != IdentityOf(b, hash).reverting by {
      assert |multiset(SortHashes(reverting))| != |multiset(SortHashes(b.reverting))|;
    }
    if PreimageV2(IdentityOf(moved, hash)) == PreimageV2(IdentityOf(b, hash)) {
      PreimageV2Injective(IdentityOf(moved, hash), IdentityOf(b, hash));
    }
  }

  // ---------------------------------------------------------------------------
  // The decoding steps that update the metadata in place

  /** Decodes the bundle, sorting the hash lists and clearing a zero refund in the metadata at hand. */
  method DecodeInner<T>(c: TxCodec<T>, raw: RawBundle) returns (r: Result<Decoded<T>, Error>)
    ensures Means(c, raw, r)
    ensures r == Decode(c, raw)
  {
    DecodeMeans(c, raw);
    hide Means;
    var m := raw.metadata;
    var replacement := DecodeReplacement(m);
    if replacement.Err? {
      return Err(replacement.error);
    }
    if raw.txs == [] {
      return if replacement.value.Some? then Ok(CancelBundle(replacement.value.value)) else Err(EmptyBundle);
    }
    var version := DecodeVersion(m);
    if version.Err? {
      return Err(version.error);
    }
    var invalid := ValidateFields(m, version.value);
    if invalid.Some? {
      return Err(invalid.value);
    }
    m := m.(reverting := SortHashes(m.reverting));
    m := m.(dropping := SortHashes(m.dropping));
    var txs := DecodeAll(c, raw.txs);
    if txs.Err? {
      return Err(txs.error);
    }
    var refund;
    m, refund := TakeRefund(c, m, txs.value);
    if refund.Err? {
      return Err(refund.error);
    }
    SortHashesTwice(raw.metadata.reverting);
    SortHashesTwice(raw.metadata.dropping);
    return Ok(NewBundle(Assemble(c, m, version.value, replacement.value, txs.value, refund.value)));
  }

  method DecodeAll<T>(c: TxCodec<T>, raws: seq<Bytes>) returns (r: Result<seq<T>, Error>)
    ensures TxsMean(c, raws, 0, r)
    ensures r == DecodeTxs(c, raws, 0)
  {
    DecodeTxsMeans(c, raws, 0);
    hide DecodeTxs, AllDecode;
    var txs: seq<T> := [];
    assert raws[0..] == raws;
    PrependNone(DecodeTxs(c, raws, 0));
    for i := 0 to |raws|
      invariant DecodeTxs(c, raws, 0) == Prepend(txs, DecodeTxs(c, raws[i..], i))
    {
      DecodeTxsStep(c, raws, i);
      var tx := c.decode(raws[i]);
      if tx.Err? {
        return Err(FailedToDecodeTransaction(i, tx.error));
      }
      PrependStep(txs, tx.value, DecodeTxs(c, raws[i + 1..], i + 1));
      txs := txs + [tx.value];
    }
    DecodeNoTxs(c, |raws|);
    assert raws[|raws|..] == [] && txs + [] == txs;
    return Ok(txs);
  }

  lemma DecodeTxsStep<T>(c: TxCodec<T>, raws: seq<Bytes>, i: nat)
    requires i < |raws|
    ensures DecodeTxs(c, raws[i..], i) ==
              match c.decode(raws[i])
              case Err(e) => Err(FailedToDecodeTransaction(i, e))
              case Ok(tx) => Prepend([tx], DecodeTxs(c, raws[i + 1..], i + 1))
  {
    assert raws[i..][0] == raws[i] && raws[i..][1..] == raws[i + 1..];
  }

  lemma DecodeNoTxs<T>(c: TxCodec<T>, from: nat)
    ensures DecodeTxs(c, [], from) == Ok([])
  {
  }

  /** Parses the refund, clearing a percentage of zero. */
  method TakeRefund<T>(c: TxCodec<T>, metadata: RawMetadata, txs: seq<T>)
    returns (m: RawMetadata, refund: Result<Option<BundleRefund>, Error>)
    ensures RefundMeans(c, metadata, txs, refund)
    ensures refund == ParseRefund(c, metadata, txs)
    ensures m == if metadata.refundPercent == Some(0) then metadata.(refundPercent := None) else metadata
  {
    m := metadata;
    if m.refundPercent.Some? {
      if m.refundPercent.value >= 100 {
        return m, Err(InvalidRefundPercent(m.refundPercent.value));
      }
      if m.refundPercent.value == 0 {
        m := m.(refundPercent := None);
      }
    }
    if m.refundPercent.None? || txs == [] {
      return m, Ok(None);
    }
    var txHash := c.hash(txs[|txs| - 1]);
    if m.refundTxHashes.Some? {
      if |m.refundTxHashes.value| > 1 {
        return m, Err(MoreThanOneRefundTxHash);
      }
      if m.refundTxHashes.value != [] {
        txHash := m.refundTxHashes.value[0];
      }
    }
    refund := Ok(Some(BundleRefund(m.refundPercent.value, OrElse(m.refundRecipient, c.signer(txs[0])), txHash,
                                   OrElse(m.delayedRefund, false))));
  }

  lemma PrependNone<T>(r: Result<seq<T>, Error>)
    ensures Prepend([], r) == r
  {
    if r.Ok? {
      assert [] + r.value == r.value;
    }
  }

  ghost function Prepend<T>(txs: seq<T>, r: Result<seq<T>, Error>): Result<seq<T>, Error> {
    if r.Ok? then Ok(txs + r.value) else r
  }

  lemma PrependStep<T>(txs: seq<T>, tx: T, r: Result<seq<T>, Error>)
    ensures Prepend(txs, Prepend([tx], r)) == Prepend(txs + [tx], r)
  {
    if r.Ok? {
      assert txs + ([tx] + r.value) == txs + [tx] + r.value;
    }
  }
}
