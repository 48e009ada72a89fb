/**
  Share bundles (mev_sendBundle): decoding the nested raw form, encoding it back, and the
  transaction count threaded through the nesting.
 */
module ShareBundles {
  import opened Wrappers

  type Bytes = seq<nat>
  type Hash = h: seq<nat> | |h| == 32 witness seq(32, i => 0)
  type Address = nat
  type Uuid = nat

  datatype TxEncoding = NoBlobData | WithBlobData

  /** The foreign transaction codec: decoding in either encoding, encoding without blobs, and hashing. */
  datatype TxCodec<!T> = TxCodec(
    decode: (TxEncoding, Bytes) -> Result<T, string>,
    encode: T -> Bytes,
    hash: T -> Hash,
    keccak: seq<nat> -> Hash)

  // ---------------------------------------------------------------------------
  // The raw form

  datatype Refund = Refund(bodyIdx: nat, percent: nat)

  datatype RefundConfig = RefundConfig(address: Address, percent: nat)

  datatype Validity = Validity(refund: seq<Refund>, refundConfig: seq<RefundConfig>)

  datatype Inclusion = Inclusion(block: nat, maxBlock: Option<nat>)

  datatype Metadata = Metadata(signer: Option<Address>, replacementNonce: Option<nat>, cancelled: bool)

  datatype RawShareBundle = RawShareBundle(
    version: string,
    inclusion: Inclusion,
    body: seq<RawBody>,
    validity: Option<Validity>,
    metadata: Option<Metadata>,
    replacementUuid: Option<Uuid>)

  datatype RawBody = RawBody(
    tx: Option<Bytes>,
    canRevert: bool,
    revertMode: Option<string>,
    bundle: Option<RawShareBundle>)

  // ---------------------------------------------------------------------------
  // The decoded form

  datatype RevertBehavior = NotAllowed | AllowedIncluded | AllowedExcluded {
    predicate CanRevert() {
      !NotAllowed?
    }
  }

  datatype Body<T> = Tx(tx: T, revert: RevertBehavior) | Bundle(inner: Inner<T>)

  datatype Inner<T> = Inner(
    body: seq<Body<T>>,
    refund: seq<Refund>,
    refundConfig: seq<RefundConfig>,
    canSkip: bool,
    originalOrderId: Option<Hash>)

  datatype ReplacementKey = ReplacementKey(id: Uuid, signer: Address)

  datatype ReplacementData = ReplacementData(key: ReplacementKey, sequenceNumber: nat)

  datatype ShareBundle<T> = ShareBundle(
    hash: Hash,
    block: nat,
    maxBlock: nat,
    inner: Inner<T>,
    listTxsLen: nat,
    signer: Option<Address>,
    replacementData: Option<ReplacementData>)

  datatype Decoded<T> = NewShareBundle(bundle: ShareBundle<T>) | CancelShareBundle(block: nat, key: ReplacementKey)

  datatype Error =
    | FailedToDecodeTransaction(index: nat, reason: string)
    | BundleTooDeep
    | IncorrectVersion
    | EmptyBody
    | TotalRefundTooBig
    | RefundConfigIncorrect
    | CancelError

  /** The transactions of a bundle, depth first, and whether each may revert. */
  function ListTxs<T>(inner: Inner<T>): seq<(T, bool)>
    decreases inner, 1
  {
    ListBodies(inner.body)
  }

  function ListBodies<T>(body: seq<Body<T>>): seq<(T, bool)>
    decreases body, 0
  {
    if body == [] then [] else ListBody(body[0]) + ListBodies(body[1..])
  }

  function ListBody<T>(body: Body<T>): seq<(T, bool)>
    decreases body, 0
  {
    match body
    case Tx(tx, revert) => [(tx, revert.CanRevert())]
    case Bundle(inner) => ListTxs(inner)
  }

  function ListTxsLen<T>(inner: Inner<T>): nat
    decreases inner, 1
  {
    ListBodiesLen(inner.body)
  }

  function ListBodiesLen<T>(body: seq<Body<T>>): nat
    decreases body, 0
  {
    if body == [] then 0 else ListBodyLen(body[0]) + ListBodiesLen(body[1..])
  }

  function ListBodyLen<T>(body: Body<T>): nat
    decreases body, 0
  {
    match body
    case Tx(_, _) => 1
    case Bundle(inner) => ListTxsLen(inner)
  }

  function Hashes<T>(c: TxCodec<T>, body: seq<Body<T>>): seq<Hash>
    decreases body, 0
  {
    if body == [] then [] else [HashBody(c, body[0])] + Hashes(c, body[1..])
  }

  function HashBody<T>(c: TxCodec<T>, body: Body<T>): Hash
    decreases body, 0
  {
    match body
    case Tx(tx, _) => c.hash(tx)
    case Bundle(inner) => HashSlow(c, inner)
  }

  function Flatten(hashes: seq<Hash>): seq<nat> {
    if hashes == [] then [] else hashes[0] + Flatten(hashes[1..])
  }

  function HashSlow<T>(c: TxCodec<T>, inner: Inner<T>): Hash
    decreases inner, 1
  {
    var hashes := Hashes(c, inner.body);
    if |hashes| == 1 then hashes[0] else c.keccak(Flatten(hashes))
  }

  // ---------------------------------------------------------------------------
  // Decoding

  const MAX_DEPTH: nat := 5
  const USIZE: nat := 0x1_0000_0000_0000_0000

  const REVERT_NOT_ALLOWED := "fail"
  const REVERT_ALLOWED_INCLUDED := "allow"
  const REVERT_ALLOWED_EXCLUDED := "drop"

  function SerializeRevert(revert: RevertBehavior): string {
    match revert
    case NotAllowed => REVERT_NOT_ALLOWED
    case AllowedIncluded => REVERT_ALLOWED_INCLUDED
    case AllowedExcluded => REVERT_ALLOWED_EXCLUDED
  }

  function ParseRevert(canRevert: bool, mode: Option<string>): RevertBehavior {
    match mode
    case Some(m) =>
      if m == REVERT_NOT_ALLOWED then NotAllowed
      else if m == REVERT_ALLOWED_INCLUDED then AllowedIncluded
      else if m == REVERT_ALLOWED_EXCLUDED then AllowedExcluded
      else NotAllowed
    case None => if canRevert then AllowedIncluded else NotAllowed
  }

  /** Sums of percentages wrap around like the machine integers they are. */
  function RefundSum(refund: seq<Refund>): nat {
    if refund == [] then 0 else (refund[0].percent + RefundSum(refund[1..])) % USIZE
  }

  function ConfigSum(config: seq<RefundConfig>): nat {
    if config == [] then 0 else (config[0].percent + ConfigSum(config[1..])) % USIZE
  }

  function ParseValidity(validity: Option<Validity>): Result<Validity, Error> {
    match validity
    case None => Ok(Validity([], []))
    case Some(v) =>
      if RefundSum(v.refund) > 100 then Err(TotalRefundTooBig)
      else if v.refundConfig != [] && ConfigSum(v.refundConfig) > 100 then Err(RefundConfigIncorrect)
      else Ok(v)
  }

  predicate KnownVersion(version: string) {
    version == "v0.1" || version == "version-1" || version == "beta-1"
  }

  /** Decodes a bundle at a nesting depth, given how many transactions came before it. */
  function Extract<T>(c: TxCodec<T>, enc: TxEncoding, depth: nat, count: nat,
                      raw: RawShareBundle): Result<(nat, Inner<T>), Error>
    decreases raw, 1
  {
    if depth > MAX_DEPTH then Err(BundleTooDeep)
    else if !KnownVersion(raw.version) then Err(IncorrectVersion)
    else
      match ExtractAll(c, enc, depth, count, raw.body)
      case Err(e) => Err(e)
      case Ok((n, body)) =>
        match ParseValidity(raw.validity)
        case Err(e) => Err(e)
        case Ok(v) => Ok((n, Inner(body, v.refund, v.refundConfig, false, None)))
  }

  function ExtractBody<T>(c: TxCodec<T>, enc: TxEncoding, depth: nat, count: nat,
                          raw: RawBody): Result<(nat, Body<T>), Error>
    decreases raw, 0
  {
    match raw.tx
    case Some(bytes) =>
      (match c.decode(enc, bytes)
       case Err(e) => Err(FailedToDecodeTransaction(count, e))
       case Ok(tx) => Ok((count + 1, Tx(tx, ParseRevert(raw.canRevert, raw.revertMode)))))
    case None =>
      match raw.bundle
      case None => Err(EmptyBody)
      case Some(bundle) =>
        match Extract(c, enc, depth + 1, count, bundle)
        case Err(e) => Err(e)
        case Ok((n, inner)) => Ok((n, Bundle(inner)))
  }

  function ExtractAll<T>(c: TxCodec<T>, enc: TxEncoding, depth: nat, count: nat,
                         body: seq<RawBody>): Result<(nat, seq<Body<T>>), Error>
    decreases body, 0
  {
    if body == [] then Ok((count, []))
    else
      match ExtractBody(c, enc, depth, count, body[0])
      case Err(e) => Err(e)
      case Ok((n, first)) =>
        match ExtractAll(c, enc, depth, n, body[1..])
        case Err(e) => Err(e)
        case Ok((m, rest)) => Ok((m, [first] + rest))
  }

  function Decode<T>(c: TxCodec<T>, enc: TxEncoding, raw: RawShareBundle): Result<Decoded<T>, Error> {
    var block := raw.inclusion.block;
    var maxBlock := if raw.inclusion.maxBlock.Some? then raw.inclusion.maxBlock.value else block;
    var signer := if raw.metadata.Some? then raw.metadata.value.signer else None;
    var nonce := if raw.metadata.Some? then raw.metadata.value.replacementNonce else None;
    var replacement :=
      if raw.replacementUuid.Some? && signer.Some? && nonce.Some? then
        Some(ReplacementData(ReplacementKey(raw.replacementUuid.value, signer.value), nonce.value))
      else None;
    if raw.metadata.Some? && raw.metadata.value.cancelled then
      if replacement.Some? then Ok(CancelShareBundle(block, replacement.value.key)) else Err(CancelError)
    else
      match Extract(c, enc, 0, 0, raw)
      case Err(e) => Err(e)
      case Ok((_, inner)) =>
        Ok(NewShareBundle(ShareBundle(HashSlow(c, inner), block, maxBlock, inner, ListTxsLen(inner), signer,
                                      replacement)))
  }

  // ---------------------------------------------------------------------------
  // Encoding

  function EncodeInner<T>(c: TxCodec<T>, inclusion: Inclusion, inner: Inner<T>): RawShareBundle
    decreases inner, 1
  {
    RawShareBundle(
      "v0.1", inclusion, EncodeAll(c, inclusion, inner.body),
      if inner.refund != [] || inner.refundConfig != [] then Some(Validity(inner.refund, inner.refundConfig)) else None,
      None, None)
  }

  function EncodeBody<T>(c: TxCodec<T>, inclusion: Inclusion, body: Body<T>): RawBody
    decreases body, 0
  {
    match body
    case Bundle(inner) => RawBody(None, false, None, Some(EncodeInner(c, inclusion, inner)))
    case Tx(tx, revert) => RawBody(Some(c.encode(tx)), revert.CanRevert(), Some(SerializeRevert(revert)), None)
  }

  function EncodeAll<T>(c: TxCodec<T>, inclusion: Inclusion, body: seq<Body<T>>): seq<RawBody>
    decreases body, 0
  {
    if body == [] then [] else [EncodeBody(c, inclusion, body[0])] + EncodeAll(c, inclusion, body[1..])
  }

  function Encode<T>(c: TxCodec<T>, b: ShareBundle<T>): RawShareBundle {
    var inclusion := Inclusion(b.block, if b.block != b.maxBlock then Some(b.maxBlock) else None);
    EncodeInner(c, inclusion, b.inner).(
      metadata :=
        if b.signer.None? then None
        else
          Some(Metadata(b.signer,
                        if b.replacementData.Some? then Some(b.replacementData.value.sequenceNumber) else None,
                        false)),
      replacementUuid := if b.replacementData.Some? then Some(b.replacementData.value.key.id) else None)
  }

  // ---------------------------------------------------------------------------
  // The count

  lemma {:induction false} CountIsLength<T>(inner: Inner<T>)
    ensures ListTxsLen(inner) == |ListTxs(inner)|
    decreases inner, 1
  {
    CountsAreLengths(inner.body);
  }

  lemma {:induction false} CountsAreLengths<T>(body: seq<Body<T>>)
    ensures ListBodiesLen(body) == |ListBodies(body)|
    decreases body, 0
  {
    if body != [] {
      CountIsLengthOf(body[0]);
      CountsAreLengths(body[1..]);
    }
  }

  lemma {:induction false} CountIsLengthOf<T>(body: Body<T>)
    ensures ListBodyLen(body) == |ListBody(body)|
    decreases body, 0
  {
    match body
    case Tx(_, _) =>
    case Bundle(inner) => CountIsLength(inner);
  }

  /** The raw bodies that are transactions, depth first; a body's transaction hides its bundle. */
  ghost function Leaves(raw: RawShareBundle): seq<RawBody>
    decreases raw, 1
  {
    LeavesAll(raw.body)
  }

  ghost function LeavesOf(body: RawBody): seq<RawBody>
    decreases body, 0
  {
    if body.tx.Some? then [body]
    else if body.bundle.Some? then Leaves(body.bundle.value)
    else []
  }

  ghost function LeavesAll(body: seq<RawBody>): seq<RawBody>
    decreases body, 0
  {
    if body == [] then [] else LeavesOf(body[0]) + LeavesAll(body[1..])
  }

  /** `txs` are the decoded leaves, one for one; each may revert when its mode says so, or when it has none and the old
      flag is set. */
  ghost predicate DecodesTo<T>(c: TxCodec<T>, enc: TxEncoding, leaves: seq<RawBody>, txs: seq<(T, bool)>) {
    && |leaves| == |txs|
    && forall i :: 0 <= i < |leaves| ==>
         && leaves[i].tx.Some? && c.decode(enc, leaves[i].tx.value) == Ok(txs[i].0)
         && (txs[i].1 <==>
               || leaves[i].revertMode == Some("allow")
               || leaves[i].revertMode == Some("drop")
               || (leaves[i].revertMode == None && leaves[i].canRevert))
  }

  /** Transaction `index`, counted from `count`, is the first of the leaves that does not decode. */
  ghost predicate FirstFailure<T>(c: TxCodec<T>, enc: TxEncoding, leaves: seq<RawBody>, count: nat, index: nat,
                                  reason: string) {
    && count <= index < count + |leaves|
    && leaves[index - count].tx.Some? && c.decode(enc, leaves[index - count].tx.value) == Err(reason)
    && forall i :: 0 <= i < index - count ==> leaves[i].tx.Some? && c.decode(enc, leaves[i].tx.value).Ok?
  }

  /** What decoding promises about the count: on success it moved past the decoded transactions, on a transaction
      failure it is at the failing one. */
  ghost predicate Counted<T>(c: TxCodec<T>, enc: TxEncoding, raws: seq<RawBody>, count: nat,
                             r: Result<(nat, seq<Body<T>>), Error>) {
    match r
    case Ok((n, body)) => n == count + |raws| && DecodesTo(c, enc, raws, ListBodies(body))
    case Err(FailedToDecodeTransaction(index, reason)) => FirstFailure(c, enc, raws, count, index, reason)
    case Err(_) => true
  }

  lemma {:induction false} ExtractCounts<T>(c: TxCodec<T>, enc: TxEncoding, depth: nat, count: nat, raw: RawShareBundle)
    ensures match Extract(c, enc, depth, count, raw)
            case Ok((n, inner)) => n == count + |Leaves(raw)| && DecodesTo(c, enc, Leaves(raw), ListTxs(inner))
            case Err(FailedToDecodeTransaction(index, reason)) =>
              FirstFailure(c, enc, Leaves(raw), count, index, reason)
            case Err(_) => true
    decreases raw, 1
  {
    ExtractAllCounts(c, enc, depth, count, raw.body);
  }

  lemma {:induction false} ExtractBodyCounts<T>(c: TxCodec<T>, enc: TxEncoding, depth: nat, count: nat, raw: RawBody)
    ensures match ExtractBody(c, enc, depth, count, raw)
            case Ok((n, b)) => n == count + |LeavesOf(raw)| && DecodesTo(c, enc, LeavesOf(raw), ListBody(b))
            case Err(FailedToDecodeTransaction(index, reason)) =>
              FirstFailure(c, enc, LeavesOf(raw), count, index, reason)
            case Err(_) => true
    decreases raw, 0
  {
    if raw.tx.None? && raw.bundle.Some? {
      ExtractCounts(c, enc, depth + 1, count, raw.bundle.value);
    }
  }

  lemma {:induction false} ExtractAllCounts<T>(c: TxCodec<T>, enc: TxEncoding, depth: nat, count: nat,
                                               body: seq<RawBody>)
    ensures Counted(c, enc, LeavesAll(body), count, ExtractAll(c, enc, depth, count, body))
    decreases body, 0
  {
    if body != [] {
      ExtractBodyCounts(c, enc, depth, count, body[0]);
      var first := ExtractBody(c, enc, depth, count, body[0]);
      if first.Ok? {
        var (n, b) := first.value;
        ExtractAllCounts(c, enc, depth, n, body[1..]);
        CountsAppend(c, enc, LeavesOf(body[0]), b, LeavesAll(body[1..]), count,
                     ExtractAll(c, enc, depth, n, body[1..]));
      }
    }
  }

  lemma CountsAppend<T>(c: TxCodec<T>, enc: TxEncoding, raws: seq<RawBody>, b: Body<T>, more: seq<RawBody>, count: nat,
                        r: Result<(nat, seq<Body<T>>), Error>)
    requires DecodesTo(c, enc, raws, ListBody(b)) && Counted(c, enc, more, count + |raws|, r)
    ensures r.Ok? ==> Counted(c, enc, raws + more, count, Ok((r.value.0, [b] + r.value.1)))
    ensures r.Err? ==> Counted(c, enc, raws + more, count, r)
  {
  }

  // ---------------------------------------------------------------------------
  // What decoding means, by the raw fields

  /** Something decoding looks at. */
  datatype Check =
    | Depth(depth: nat)
    | Version(version: string)
    | Transaction(raw: Bytes)
    | Nothing
    | Refunds(percents: seq<nat>)
    | Configs(percents: seq<nat>)

  /** All that decoding looks at, in sequence: a bundle's depth and version, its bodies, and then its refunds. */
  ghost function Checks(depth: nat, raw: RawShareBundle): seq<Check>
    decreases raw, 1
  {
    [Depth(depth), Version(raw.version)] + AllChecks(depth, raw.body) + ValidityChecks(raw.validity)
  }

  ghost function AllChecks(depth: nat, body: seq<RawBody>): seq<Check>
    decreases body, 0
  {
    if body == [] then [] else BodyChecks(depth, body[0]) + AllChecks(depth, body[1..])
  }

  ghost function BodyChecks(depth: nat, body: RawBody): seq<Check>
    decreases body, 0
  {
    if body.tx.Some? then [Transaction(body.tx.value)]
    else if body.bundle.Some? then Checks(depth + 1, body.bundle.value)
    else [Nothing]
  }

  ghost function ValidityChecks(validity: Option<Validity>): seq<Check> {
    match validity
    case None => []
    case Some(v) => [Refunds(RefundPercents(v.refund)), Configs(ConfigPercents(v.refundConfig))]
  }

  ghost function RefundPercents(refund: seq<Refund>): seq<nat> {
    seq(|refund|, i requires 0 <= i < |refund| => refund[i].percent)
  }

  ghost function ConfigPercents(config: seq<RefundConfig>): seq<nat> {
    seq(|config|, i requires 0 <= i < |config| => config[i].percent)
  }

  ghost function Total(percents: seq<nat>): nat {
    if percents == [] then 0 else percents[0] + Total(percents[1..])
  }

  /** The check fails with an error; `count` transactions came before it. */
  ghost predicate FailsWith<T>(c: TxCodec<T>, enc: TxEncoding, check: Check, count: nat, e: Error) {
    match check
    case Depth(depth) => depth > 5 && e == BundleTooDeep
    case Version(v) => v != "v0.1" && v != "version-1" && v != "beta-1" && e == IncorrectVersion
    case Transaction(raw) => e.FailedToDecodeTransaction? && e.index == count && c.decode(enc, raw) == Err(e.reason)
    case Nothing => e == EmptyBody
    case Refunds(percents) => Total(percents) % 0x1_0000_0000_0000_0000 > 100 && e == TotalRefundTooBig
    case Configs(percents) => Total(percents) % 0x1_0000_0000_0000_0000 > 100 && e == RefundConfigIncorrect
  }

  ghost predicate Passes<T>(c: TxCodec<T>, enc: TxEncoding, check: Check) {
    match check
    case Depth(depth) => depth <= 5
    case Version(v) => v == "v0.1" || v == "version-1" || v == "beta-1"
    case Transaction(raw) => c.decode(enc, raw).Ok?
    case Nothing => false
    case Refunds(percents) => Total(percents) % 0x1_0000_0000_0000_0000 <= 100
    case Configs(percents) => Total(percents) % 0x1_0000_0000_0000_0000 <= 100
  }

  ghost predicate AllPass<T>(c: TxCodec<T>, enc: TxEncoding, checks: seq<Check>) {
    forall i :: 0 <= i < |checks| ==> Passes(c, enc, checks[i])
  }

  /** How many of the checks are transactions. */
  ghost function TxCount(checks: seq<Check>): nat {
    if checks == [] then 0 else (if checks[0].Transaction? then 1 else 0) + TxCount(checks[1..])
  }

  /** The first check that does not pass fails with the error. */
  ghost predicate FirstProblem<T>(c: TxCodec<T>, enc: TxEncoding, checks: seq<Check>, count: nat, e: Error) {
    exists i :: 0 <= i < |checks| && AllPass(c, enc, checks[..i])
             && FailsWith(c, enc, checks[i], count + TxCount(checks[..i]), e)
  }

  /** Excluded when it reverts exactly in mode "drop"; included when it reverts in mode "allow", or without a mode when
      the old flag is set; otherwise not allowed to. */
  ghost predicate Behaves(canRevert: bool, mode: Option<string>, revert: RevertBehavior) {
    && (revert == AllowedExcluded <==> mode == Some("drop"))
    && (revert == AllowedIncluded <==> mode == Some("allow") || (mode == None && canRevert))
  }

  /** The decoded form of a raw bundle: body by body, with the refunds of each nesting. */
  ghost predicate Matches<T>(c: TxCodec<T>, enc: TxEncoding, raw: RawShareBundle, inner: Inner<T>)
    decreases raw, 1
  {
    && |inner.body| == |raw.body|
    && (forall i :: 0 <= i < |raw.body| ==> BodyMatches(c, enc, raw.body[i], inner.body[i]))
    && inner.refund == (if raw.validity.Some? then raw.validity.value.refund else [])
    && inner.refundConfig == (if raw.validity.Some? then raw.validity.value.refundConfig else [])
    && !inner.canSkip && inner.originalOrderId.None?
  }

  ghost predicate BodyMatches<T>(c: TxCodec<T>, enc: TxEncoding, raw: RawBody, body: Body<T>)
    decreases raw, 0
  {
    match body
    case Tx(tx, revert) =>
      raw.tx.Some? && c.decode(enc, raw.tx.value) == Ok(tx) && Behaves(raw.canRevert, raw.revertMode, revert)
    case Bundle(inner) => raw.tx.None? && raw.bundle.Some? && Matches(c, enc, raw.bundle.value, inner)
  }

  /** A raw bundle has at most one decoded form. */
  lemma {:induction false} MatchesUnique<T>(c: TxCodec<T>, enc: TxEncoding, raw: RawShareBundle, a: Inner<T>,
                                            b: Inner<T>)
    requires Matches(c, enc, raw, a) && Matches(c, enc, raw, b)
    ensures a == b
    decreases raw, 1
  {
    forall i | 0 <= i < |raw.body|
      ensures a.body[i] == b.body[i]
    {
      BodyMatchesUnique(c, enc, raw.body[i], a.body[i], b.body[i]);
    }
    assert a.body == b.body;
  }

  lemma {:induction false} BodyMatchesUnique<T>(c: TxCodec<T>, enc: TxEncoding, raw: RawBody, a: Body<T>, b: Body<T>)
    requires BodyMatches(c, enc, raw, a) && BodyMatches(c, enc, raw, b)
    ensures a == b
    decreases raw, 0
  {
    if a.Bundle? && b.Bundle? {
      MatchesUnique(c, enc, raw.bundle.value, a.inner, b.inner);
    }
  }

  lemma {:induction false} TxCountAppend(a: seq<Check>, b: seq<Check>)
    ensures TxCount(a + b) == TxCount(a) + TxCount(b)
  {
    if a == [] {
      assert a + b == b;
    } else {
      TxCountAppend(a[1..], b);
      assert (a + b)[1..] == a[1..] + b;
    }
  }

  lemma ProblemAhead<T>(c: TxCodec<T>, enc: TxEncoding, a: seq<Check>, b: seq<Check>, count: nat, e: Error)
    requires FirstProblem(c, enc, a, count, e)
    ensures FirstProblem(c, enc, a + b, count, e)
  {
    var i :| 0 <= i < |a| && AllPass(c, enc, a[..i]) && FailsWith(c, enc, a[i], count + TxCount(a[..i]), e);
    assert (a + b)[..i] == a[..i] && (a + b)[i] == a[i];
  }

  lemma AllPassAppend<T>(c: TxCodec<T>, enc: TxEncoding, a: seq<Check>, b: seq<Check>)
    ensures AllPass(c, enc, a + b) <==> AllPass(c, enc, a) && AllPass(c, enc, b)
  {
    hide Passes;
    assert forall i :: 0 <= i < |a| ==> (a + b)[i] == a[i];
    assert forall i :: 0 <= i < |b| ==> (a + b)[|a| + i] == b[i];
  }

  lemma ProblemBehind<T>(c: TxCodec<T>, enc: TxEncoding, a: seq<Check>, b: seq<Check>, count: nat, e: Error)
    requires AllPass(c, enc, a) && FirstProblem(c, enc, b, count + TxCount(a), e)
    ensures FirstProblem(c, enc, a + b, count, e)
  {
    hide FailsWith, AllPass, TxCount;
    var i :| 0 <= i < |b| && AllPass(c, enc, b[..i])
             && FailsWith(c, enc, b[i], count + TxCount(a) + TxCount(b[..i]), e);
    TxCountAppend(a, b[..i]);
    AllPassAppend(c, enc, a, b[..i]);
    assert (a + b)[..|a| + i] == a + b[..i] && (a + b)[|a| + i] == b[i];
  }

  /** What decoding a list of bodies promises. */
  ghost predicate AllMeans<T>(c: TxCodec<T>, enc: TxEncoding, depth: nat, count: nat, body: seq<RawBody>,
                              r: Result<(nat, seq<Body<T>>), Error>) {
    match r
    case Ok((n, decoded)) =>
      && AllPass(c, enc, AllChecks(depth, body)) && n == count + TxCount(AllChecks(depth, body))
      && |decoded| == |body| && forall i :: 0 <= i < |body| ==> BodyMatches(c, enc, body[i], decoded[i])
    case Err(e) => FirstProblem(c, enc, AllChecks(depth, body), count, e)
  }

  ghost predicate BodyMeans<T>(c: TxCodec<T>, enc: TxEncoding, depth: nat, count: nat, body: RawBody,
                               r: Result<(nat, Body<T>), Error>) {
    match r
    case Ok((n, b)) =>
      && AllPass(c, enc, BodyChecks(depth, body)) && n == count + TxCount(BodyChecks(depth, body))
      && BodyMatches(c, enc, body, b)
    case Err(e) => FirstProblem(c, enc, BodyChecks(depth, body), count, e)
  }

  /** What decoding a bundle at some depth promises: its decoded form if every check passes, and otherwise the error of
      the first that does not. */
  ghost predicate ExtractMeans<T>(c: TxCodec<T>, enc: TxEncoding, depth: nat, count: nat, raw: RawShareBundle,
                                  r: Result<(nat, Inner<T>), Error>) {
    match r
    case Ok((n, inner)) =>
      && AllPass(c, enc, Checks(depth, raw)) && n == count + TxCount(Checks(depth, raw))
      && Matches(c, enc, raw, inner)
    case Err(e) => FirstProblem(c, enc, Checks(depth, raw), count, e)
  }

  lemma {:induction false} ExtractIs<T>(c: TxCodec<T>, enc: TxEncoding, depth: nat, count: nat, raw: RawShareBundle)
    ensures ExtractMeans(c, enc, depth, count, raw, Extract(c, enc, depth, count, raw))
    decreases raw, 1
  {
    var head := [Depth(depth), Version(raw.version)];
    var body, tail := AllChecks(depth, raw.body), ValidityChecks(raw.validity);
    HeadChecks(c, enc, depth, count, raw.version);
    if AllPass(c, enc, head) {
      ExtractAllIs(c, enc, depth, count, raw.body);
      var r := ExtractAll(c, enc, depth, count, raw.body);
      TxCountAppend(head, body);
      if r.Err? {
        ProblemBehind(c, enc, head, body, count, r.error);
        ProblemAhead(c, enc, head + body, tail, count, r.error);
      } else {
        ValidityIs(c, enc, count + TxCount(head + body), raw.validity);
        TxCountAppend(head + body, tail);
        if ParseValidity(raw.validity).Err? {
          ProblemBehind(c, enc, head + body, tail, count, ParseValidity(raw.validity).error);
        }
      }
    } else {
      var e := if depth > MAX_DEPTH then BundleTooDeep else IncorrectVersion;
      ProblemAhead(c, enc, head, body, count, e);
      ProblemAhead(c, enc, head + body, tail, count, e);
    }
  }

  lemma TwoChecks<T>(c: TxCodec<T>, enc: TxEncoding, first: Check, second: Check, count: nat)
    requires !first.Transaction? && !second.Transaction?
    ensures var checks := [first, second];
            && TxCount(checks) == 0
            && (AllPass(c, enc, checks) <==> Passes(c, enc, first) && Passes(c, enc, second))
            && (forall e: Error :: FailsWith(c, enc, first, count, e) ==> FirstProblem(c, enc, checks, count, e))
            && (forall e: Error :: Passes(c, enc, first) && FailsWith(c, enc, second, count, e) ==>
                  FirstProblem(c, enc, checks, count, e))
  {
    hide FailsWith, Passes;
    var checks := [first, second];
    assert checks[0] == first && checks[1] == second && checks[..0] == [] && checks[..1] == [first];
    assert checks[1..] == [second] && [second][1..] == [] && [first][1..] == [];
    assert TxCount([second]) == 0 && TxCount([first]) == 0;
  }

  lemma HeadChecks<T>(c: TxCodec<T>, enc: TxEncoding, depth: nat, count: nat, version: string)
    ensures var head := [Depth(depth), Version(version)];
            && TxCount(head) == 0
            && (AllPass(c, enc, head) <==> depth <= MAX_DEPTH && KnownVersion(version))
            && (depth > MAX_DEPTH ==> FirstProblem(c, enc, head, count, BundleTooDeep))
            && (depth <= MAX_DEPTH && !KnownVersion(version) ==> FirstProblem(c, enc, head, count, IncorrectVersion))
  {
    hide FirstProblem, AllPass, TxCount;
    TwoChecks(c, enc, Depth(depth), Version(version), count);
  }

  lemma {:induction false} RefundSumIs(refund: seq<Refund>)
    ensures RefundSum(refund) == Total(RefundPercents(refund)) % 0x1_0000_0000_0000_0000
  {
    if refund != [] {
      RefundSumIs(refund[1..]);
      assert RefundPercents(refund)[1..] == RefundPercents(refund[1..]);
      AddModulo(refund[0].percent, Total(RefundPercents(refund[1..])));
    }
  }

  lemma {:induction false} ConfigSumIs(config: seq<RefundConfig>)
    ensures ConfigSum(config) == Total(ConfigPercents(config)) % 0x1_0000_0000_0000_0000
  {
    if config != [] {
      ConfigSumIs(config[1..]);
      assert ConfigPercents(config)[1..] == ConfigPercents(config[1..]);
      AddModulo(config[0].percent, Total(ConfigPercents(config[1..])));
    }
  }

  lemma AddModulo(x: nat, y: nat)
    ensures (x + y % USIZE) % USIZE == (x + y) % USIZE
  {
    assert x + y == x + y % USIZE + USIZE * (y / USIZE);
  }

  lemma NoConfigs()
    ensures Total(ConfigPercents([])) == 0
  {
  }

  lemma ValidityIs<T>(c: TxCodec<T>, enc: TxEncoding, count: nat, validity: Option<Validity>)
    ensures var checks, r := ValidityChecks(validity), ParseValidity(validity);
            && TxCount(checks) == 0
            && (r.Ok? ==> AllPass(c, enc, checks))
            && (r.Err? ==> FirstProblem(c, enc, checks, count, r.error))
  {
    if validity.Some? {
      var v := validity.value;
      hide RefundSum, ConfigSum, Total, RefundPercents, ConfigPercents, FirstProblem, AllPass, TxCount;
      RefundSumIs(v.refund);
      ConfigSumIs(v.refundConfig);
      NoConfigs();
      TwoChecks(c, enc, Refunds(RefundPercents(v.refund)), Configs(ConfigPercents(v.refundConfig)), count);
    }
  }

  lemma {:induction false} ExtractAllIs<T>(c: TxCodec<T>, enc: TxEncoding, depth: nat, count: nat, body: seq<RawBody>)
    ensures AllMeans(c, enc, depth, count, body, ExtractAll(c, enc, depth, count, body))
    decreases body, 0
  {
    if body != [] {
      var first, rest := BodyChecks(depth, body[0]), AllChecks(depth, body[1..]);
      ExtractBodyIs(c, enc, depth, count, body[0]);
      var b := ExtractBody(c, enc, depth, count, body[0]);
      if b.Err? {
        ProblemAhead(c, enc, first, rest, count, b.error);
      } else {
        ExtractAllIs(c, enc, depth, b.value.0, body[1..]);
        TxCountAppend(first, rest);
        var r := ExtractAll(c, enc, depth, b.value.0, body[1..]);
        if r.Err? {
          ProblemBehind(c, enc, first, rest, count, r.error);
        }
      }
    }
  }

  lemma {:induction false} ExtractBodyIs<T>(c: TxCodec<T>, enc: TxEncoding, depth: nat, count: nat, raw: RawBody)
    ensures BodyMeans(c, enc, depth, count, raw, ExtractBody(c, enc, depth, count, raw))
    decreases raw, 0
  {
    var checks := BodyChecks(depth, raw);
    if raw.tx.None? && raw.bundle.Some? {
      ExtractIs(c, enc, depth + 1, count, raw.bundle.value);
    } else {
      assert |checks| == 1 && checks[..0] == [];
    }
  }

  /** The hash of a bundle with one body is the hash of that, and otherwise that of the hashes of all. */
  ghost predicate IsHashOf<T>(c: TxCodec<T>, inner: Inner<T>, hash: Hash)
    decreases inner, 1
  {
    exists hashes: seq<Hash> ::
      && |hashes| == |inner.body|
      && (forall i :: 0 <= i < |inner.body| ==> IsBodyHash(c, inner.body[i], hashes[i]))
      && hash == if |hashes| == 1 then hashes[0] else c.keccak(Flatten(hashes))
  }

  ghost predicate IsBodyHash<T>(c: TxCodec<T>, body: Body<T>, hash: Hash)
    decreases body, 0
  {
    match body
    case Tx(tx, _) => hash == c.hash(tx)
    case Bundle(inner) => IsHashOf(c, inner, hash)
  }

  lemma {:induction false} HashSlowIs<T>(c: TxCodec<T>, inner: Inner<T>)
    ensures IsHashOf(c, inner, HashSlow(c, inner))
    decreases inner, 1
  {
    HashesAre(c, inner.body);
    var hashes := Hashes(c, inner.body);
    assert |hashes| == |inner.body|;
  }

  lemma {:induction false} HashesAre<T>(c: TxCodec<T>, body: seq<Body<T>>)
    ensures |Hashes(c, body)| == |body|
    ensures forall i :: 0 <= i < |body| ==> IsBodyHash(c, body[i], Hashes(c, body)[i])
    decreases body, 0
  {
    if body != [] {
      HashesAre(c, body[1..]);
      HashBodyIs(c, body[0]);
    }
  }

  lemma {:induction false} HashBodyIs<T>(c: TxCodec<T>, body: Body<T>)
    ensures IsBodyHash(c, body, HashBody(c, body))
    decreases body, 0
  {
    if body.Bundle? {
      HashSlowIs(c, body.inner);
    }
  }

  lemma {:induction false} FlattenAt(hashes: seq<Hash>, i: nat)
    requires i < |hashes|
    ensures |Flatten(hashes)| == 32 * |hashes| && Flatten(hashes)[32 * i..32 * i + 32] == hashes[i]
  {
    FlattenLength(hashes);
    if i > 0 {
      FlattenAt(hashes[1..], i - 1);
      assert Flatten(hashes)[32 * i..32 * i + 32] == Flatten(hashes[1..])[32 * (i - 1)..32 * (i - 1) + 32];
    }
  }

  lemma {:induction false} FlattenLength(hashes: seq<Hash>)
    ensures |Flatten(hashes)| == 32 * |hashes|
  {
    if hashes != [] {
      FlattenLength(hashes[1..]);
    }
  }

  ghost predicate IsReplacement(raw: RawShareBundle, data: ReplacementData) {
    && raw.replacementUuid == Some(data.key.id)
    && raw.metadata.Some? && raw.metadata.value.signer == Some(data.key.signer)
    && raw.metadata.value.replacementNonce == Some(data.sequenceNumber)
  }

  /** Some part of the replacement data is missing. */
  ghost predicate NoReplacement(raw: RawShareBundle) {
    || raw.replacementUuid.None? || raw.metadata.None?
    || raw.metadata.value.signer.None? || raw.metadata.value.replacementNonce.None?
  }

  /** The fields of a decoded share bundle. */
  ghost predicate IsShareBundle<T>(c: TxCodec<T>, enc: TxEncoding, raw: RawShareBundle, b: ShareBundle<T>) {
    && Matches(c, enc, raw, b.inner) && b.listTxsLen == |Leaves(raw)| && IsHashOf(c, b.inner, b.hash)
    && b.block == raw.inclusion.block
    && b.maxBlock == (if raw.inclusion.maxBlock.Some? then raw.inclusion.maxBlock.value else raw.inclusion.block)
    && b.signer == (if raw.metadata.Some? then raw.metadata.value.signer else None)
    && (if b.replacementData.Some? then IsReplacement(raw, b.replacementData.value) else NoReplacement(raw))
  }

  ghost predicate IsCancelled(raw: RawShareBundle) {
    raw.metadata.Some? && raw.metadata.value.cancelled
  }

  /** Every outcome of decoding a whole share bundle, with its exact condition. */
  ghost predicate Means<T>(c: TxCodec<T>, enc: TxEncoding, raw: RawShareBundle, r: Result<Decoded<T>, Error>) {
    match r
    case Err(e) =>
      if e == CancelError then IsCancelled(raw) && NoReplacement(raw)
      else !IsCancelled(raw) && FirstProblem(c, enc, Checks(0, raw), 0, e)
    case Ok(d) =>
      match d
      case CancelShareBundle(block, key) =>
        && IsCancelled(raw) && block == raw.inclusion.block
        && exists n: nat :: IsReplacement(raw, ReplacementData(key, n))
      case NewShareBundle(b) => !IsCancelled(raw) && AllPass(c, enc, Checks(0, raw)) && IsShareBundle(c, enc, raw, b)
  }

  lemma DecodeMeans<T>(c: TxCodec<T>, enc: TxEncoding, raw: RawShareBundle)
    ensures Means(c, enc, raw, Decode(c, enc, raw))
  {
    hide Matches, FirstProblem, AllPass, Checks, HashSlow, IsHashOf, ListTxsLen, Extract;
    ExtractIs(c, enc, 0, 0, raw);
    ExtractCounts(c, enc, 0, 0, raw);
    var r := Extract(c, enc, 0, 0, raw);
    NeverCancelError(c, enc, Checks(0, raw), 0);
    if r.Ok? {
      CountIsLength(r.value.1);
      HashSlowIs(c, r.value.1);
    }
    var cancelled := Decode(c, enc, raw);
    if cancelled.Ok? && cancelled.value.CancelShareBundle? {
      assert IsReplacement(raw, ReplacementData(cancelled.value.key, raw.metadata.value.replacementNonce.value));
    }
  }

  lemma NeverCancelError<T>(c: TxCodec<T>, enc: TxEncoding, checks: seq<Check>, count: nat)
    ensures !FirstProblem(c, enc, checks, count, CancelError)
  {
  }

  // ---------------------------------------------------------------------------
  // Normal form

  /** What decoding leaves in a bundle: nothing nested too deep, refunds in bounds, no internal fields set. */
  ghost predicate Decodable<T>(inner: Inner<T>, depth: nat)
    decreases inner, 1
  {
    && depth <= MAX_DEPTH
    && ParseValidity(Some(Validity(inner.refund, inner.refundConfig))).Ok?
    && !inner.canSkip && inner.originalOrderId.None?
    && AllDecodable(inner.body, depth)
  }

  ghost predicate AllDecodable<T>(body: seq<Body<T>>, depth: nat)
    decreases body, 0
  {
    body != [] ==> BodyDecodable(body[0], depth) && AllDecodable(body[1..], depth)
  }

  ghost predicate BodyDecodable<T>(body: Body<T>, depth: nat)
    decreases body, 0
  {
    body.Bundle? ==> Decodable(body.inner, depth + 1)
  }

  lemma {:induction false} ExtractIsDecodable<T>(c: TxCodec<T>, enc: TxEncoding, depth: nat, count: nat,
                                                 raw: RawShareBundle)
    requires Extract(c, enc, depth, count, raw).Ok?
    ensures Decodable(Extract(c, enc, depth, count, raw).value.1, depth)
    decreases raw, 1
  {
    ExtractAllDecodable(c, enc, depth, count, raw.body);
  }

  lemma {:induction false} ExtractAllDecodable<T>(c: TxCodec<T>, enc: TxEncoding, depth: nat, count: nat,
                                                  body: seq<RawBody>)
    requires ExtractAll(c, enc, depth, count, body).Ok?
    ensures AllDecodable(ExtractAll(c, enc, depth, count, body).value.1, depth)
    decreases body, 0
  {
    if body != [] {
      ExtractBodyDecodable(c, enc, depth, count, body[0]);
      var (n, b) := ExtractBody(c, enc, depth, count, body[0]).value;
      ExtractAllDecodable(c, enc, depth, n, body[1..]);
      var (_, rest) := ExtractAll(c, enc, depth, n, body[1..]).value;
      assert ([b] + rest)[1..] == rest;
    }
  }

  lemma {:induction false} ExtractBodyDecodable<T>(c: TxCodec<T>, enc: TxEncoding, depth: nat, count: nat, raw: RawBody)
    requires ExtractBody(c, enc, depth, count, raw).Ok?
    ensures BodyDecodable(ExtractBody(c, enc, depth, count, raw).value.1, depth)
    decreases raw, 0
  {
    if raw.tx.None? {
      ExtractIsDecodable(c, enc, depth + 1, count, raw.bundle.value);
    }
  }

  /** The blob-free codec gives these transactions back. */
  ghost predicate RoundTrips<T>(c: TxCodec<T>, txs: seq<(T, bool)>) {
    forall i :: 0 <= i < |txs| ==> c.decode(NoBlobData, c.encode(txs[i].0)) == Ok(txs[i].0)
  }

  lemma {:induction false} EncodeThenExtract<T>(c: TxCodec<T>, inclusion: Inclusion, depth: nat, count: nat,
                                                inner: Inner<T>)
    requires Decodable(inner, depth) && RoundTrips(c, ListTxs(inner))
    ensures Extract(c, NoBlobData, depth, count, EncodeInner(c, inclusion, inner)) ==
              Ok((count + ListTxsLen(inner), inner))
    decreases inner, 1
  {
    EncodeThenExtractAll(c, inclusion, depth, count, inner.body);
  }

  lemma RoundTripsSplit<T>(c: TxCodec<T>, first: seq<(T, bool)>, rest: seq<(T, bool)>)
    requires RoundTrips(c, first + rest)
    ensures RoundTrips(c, first) && RoundTrips(c, rest)
  {
    var txs := first + rest;
    assert forall i :: 0 <= i < |first| ==> first[i] == txs[i];
    assert forall i :: 0 <= i < |rest| ==> rest[i] == txs[|first| + i];
  }

  lemma {:induction false} EncodeThenExtractAll<T>(c: TxCodec<T>, inclusion: Inclusion, depth: nat, count: nat,
                                                   body: seq<Body<T>>)
    requires AllDecodable(body, depth) && RoundTrips(c, ListBodies(body))
    ensures ExtractAll(c, NoBlobData, depth, count, EncodeAll(c, inclusion, body)) ==
              Ok((count + ListBodiesLen(body), body))
    decreases body, 0
  {
    if body != [] {
      RoundTripsSplit(c, ListBody(body[0]), ListBodies(body[1..]));
      hide RoundTrips, ExtractBody, EncodeBody, ListBody, ListBodyLen;
      EncodeThenExtractBody(c, inclusion, depth, count, body[0]);
      EncodeThenExtractAll(c, inclusion, depth, count + ListBodyLen(body[0]), body[1..]);
      var raw := EncodeAll(c, inclusion, body);
      assert raw[0] == EncodeBody(c, inclusion, body[0]) && raw[1..] == EncodeAll(c, inclusion, body[1..]);
      assert [body[0]] + body[1..] == body;
    }
  }

  lemma {:induction false} EncodeThenExtractBody<T>(c: TxCodec<T>, inclusion: Inclusion, depth: nat, count: nat,
                                                    body: Body<T>)
    requires BodyDecodable(body, depth) && RoundTrips(c, ListBody(body))
    ensures ExtractBody(c, NoBlobData, depth, count, EncodeBody(c, inclusion, body)) ==
              Ok((count + ListBodyLen(body), body))
    decreases body, 0
  {
    match body
    case Tx(tx, revert) =>
      assert ListBody(body)[0].0 == tx;
    case Bundle(inner) => EncodeThenExtract(c, inclusion, depth + 1, count, inner);
  }

  /** An encoded transaction says how it may revert, in both forms. */
  lemma EncodedRevert<T>(c: TxCodec<T>, inclusion: Inclusion, tx: T, revert: RevertBehavior)
    ensures var raw := EncodeBody(c, inclusion, Tx(tx, revert));
            && raw.tx == Some(c.encode(tx)) && raw.bundle.None? && Behaves(raw.canRevert, raw.revertMode, revert)
            && (raw.canRevert <==> revert != NotAllowed)
            && (raw.revertMode == Some("fail") <==> revert == NotAllowed)
            && (raw.revertMode == Some("allow") <==> revert == AllowedIncluded)
            && (raw.revertMode == Some("drop") <==> revert == AllowedExcluded)
  {
  }

  /** A decoded share bundle, encoded and decoded again, is the same bundle. */
  lemma ShareBundleNormalForm<T>(c: TxCodec<T>, enc: TxEncoding, raw: RawShareBundle, b: ShareBundle<T>)
    requires Decode(c, enc, raw) == Ok(NewShareBundle(b)) && RoundTrips(c, ListTxs(b.inner))
    ensures Decode(c, NoBlobData, Encode(c, b)) == Ok(NewShareBundle(b))
  {
    var inclusion := Inclusion(b.block, if b.block != b.maxBlock then Some(b.maxBlock) else None);
    ExtractIsDecodable(c, enc, 0, 0, raw);
    EncodeThenExtract(c, inclusion, 0, 0, b.inner);
    SameBody(c, NoBlobData, 0, 0, EncodeInner(c, inclusion, b.inner), Encode(c, b));
  }

  /** Metadata and replacement data play no part in extracting the bundle. */
  lemma SameBody<T>(c: TxCodec<T>, enc: TxEncoding, depth: nat, count: nat, r: RawShareBundle, s: RawShareBundle)
    requires r.version == s.version && r.body == s.body && r.validity == s.validity
    ensures Extract(c, enc, depth, count, r) == Extract(c, enc, depth, count, s)
  {
  }

  /** The decoded count and the reported index, for a whole bundle. */
  lemma DecodeCounts<T>(c: TxCodec<T>, enc: TxEncoding, raw: RawShareBundle)
    ensures match Decode(c, enc, raw)
            case Ok(NewShareBundle(b)) =>
              && b.listTxsLen == |ListTxs(b.inner)| == |Leaves(raw)|
              && DecodesTo(c, enc, Leaves(raw), ListTxs(b.inner))
            case Err(FailedToDecodeTransaction(index, reason)) => FirstFailure(c, enc, Leaves(raw), 0, index, reason)
            case _ => true
  {
    ExtractCounts(c, enc, 0, 0, raw);
    var r := Decode(c, enc, raw);
    if r.Ok? && r.value.NewShareBundle? {
      CountIsLength(r.value.bundle.inner);
    }
  }

  // ---------------------------------------------------------------------------
  // The decoding loop

  /** Decodes a bundle, threading the transaction count through a loop over its bodies. */
  method ExtractInnerBundle<T>(c: TxCodec<T>, enc: TxEncoding, depth: nat, count: nat, raw: RawShareBundle)
    returns (r: Result<(nat, Inner<T>), Error>)
    ensures ExtractMeans(c, enc, depth, count, raw, r)
    ensures r == Extract(c, enc, depth, count, raw)
    decreases raw
  {
    ExtractIs(c, enc, depth, count, raw);
    hide ExtractMeans;
    if depth > MAX_DEPTH {
      return Err(BundleTooDeep);
    }
    if !KnownVersion(raw.version) {
      return Err(IncorrectVersion);
    }
    var txCount := count;
    var body: seq<Body<T>> := [];
    ContinuesStart(c, enc, depth, count, raw.body);
    for i := 0 to |raw.body|
      invariant Continues(c, enc, depth, count, raw.body, i, txCount, body)
    {
      var next := raw.body[i];
      assert raw.body[i..][0] == next && raw.body[i..][1..] == raw.body[i + 1..];
      ContinuesStep(c, enc, depth, count, raw.body, i, txCount, body);
      if next.tx.Some? {
        var tx := c.decode(enc, next.tx.value);
        if tx.Err? {
          return Err(FailedToDecodeTransaction(txCount, tx.error));
        }
        txCount := txCount + 1;
        body := body + [Tx(tx.value, ParseRevert(next.canRevert, next.revertMode))];
      } else if next.bundle.Some? {
        var nested := ExtractInnerBundle(c, enc, depth + 1, txCount, next.bundle.value);
        if nested.Err? {
          return Err(nested.error);
        }
        txCount := nested.value.0;
        body := body + [Bundle(nested.value.1)];
      } else {
        return Err(EmptyBody);
      }
    }
    assert raw.body[|raw.body|..] == [];
    assert body + [] == body;
    var v := ParseValidity(raw.validity);
    if v.Err? {
      return Err(v.error);
    }
    return Ok((txCount, Inner(body, v.value.refund, v.value.refundConfig, false, None)));
  }

  /** What was decoded so far, and the rest of the bodies, make up the whole result. */
  ghost predicate Continues<T>(c: TxCodec<T>, enc: TxEncoding, depth: nat, count: nat, raws: seq<RawBody>, i: nat,
                               txCount: nat, body: seq<Body<T>>)
    requires i <= |raws|
  {
    ExtractAll(c, enc, depth, count, raws) ==
    match ExtractAll(c, enc, depth, txCount, raws[i..])
    case Err(e) => Err(e)
    case Ok((n, rest)) => Ok((n, body + rest))
  }

  lemma ContinuesStart<T>(c: TxCodec<T>, enc: TxEncoding, depth: nat, count: nat, raws: seq<RawBody>)
    ensures Continues(c, enc, depth, count, raws, 0, count, [])
  {
    assert raws[0..] == raws;
    var r := ExtractAll(c, enc, depth, count, raws);
    if r.Ok? {
      assert [] + r.value.1 == r.value.1;
    }
  }

  lemma ContinuesStep<T>(c: TxCodec<T>, enc: TxEncoding, depth: nat, count: nat, raws: seq<RawBody>, i: nat,
                         txCount: nat, body: seq<Body<T>>)
    requires i < |raws| && Continues(c, enc, depth, count, raws, i, txCount, body)
    ensures match ExtractBody(c, enc, depth, txCount, raws[i])
            case Err(e) => ExtractAll(c, enc, depth, count, raws) == Err(e)
            case Ok((n, b)) => Continues(c, enc, depth, count, raws, i + 1, n, body + [b])
  {
    assert raws[i..][0] == raws[i] && raws[i..][1..] == raws[i + 1..];
    var first := ExtractBody(c, enc, depth, txCount, raws[i]);
    if first.Ok? {
      var (n, b) := first.value;
      var rest := ExtractAll(c, enc, depth, n, raws[i + 1..]);
      if rest.Ok? {
        assert body + ([b] + rest.value.1) == body + [b] + rest.value.1;
      }
    }
  }
}
