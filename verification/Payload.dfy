// Payload attributes, built payloads and their conversion guards.
module Payload {
  import opened Wrappers
  import opened ChainSpec
  import opened Pool
  import opened Selection
  import opened SelectionResults

  // A 32-byte value, read as a big-endian number.
  type B256 = nat

  const LOAD_PREVRANDAO: B256 := 1

  datatype Header = Header(hash: B256, timestamp: nat, gasLimit: nat)

  const EMPTY_LIST_RLP_LENGTH: nat := 1

  // Of the withdrawals only their encoded length matters here.
  datatype PayloadAttributes = PayloadAttributes(
    timestamp: nat, prevRandao: B256, withdrawalsLength: Option<nat>, parentBeaconRoot: Option<B256>)

  // Attributes that went through TryNew; `parent` is the hash of the parent block.
  datatype BuilderAttributes = BuilderAttributes(parent: B256, inner: PayloadAttributes)

  datatype AttributesError = InvalidPrevRandao(got: B256) | InvalidTimestamp(got: nat, parent: nat)

  function ValidatePrevRandao(prevRandao: B256): Result<Unit, AttributesError> {
    if prevRandao == LOAD_PREVRANDAO then Ok(Unit) else Err(InvalidPrevRandao(prevRandao))
  }

  function TryNew(parent: B256, attrs: PayloadAttributes): Result<BuilderAttributes, AttributesError> {
    match ValidatePrevRandao(attrs.prevRandao)
    case Ok(_) => Ok(BuilderAttributes(parent, attrs))
    case Err(e) => Err(e)
  }

  function ValidatePayloadAttributes(parentTimestamp: nat, attrs: BuilderAttributes): Result<Unit, AttributesError> {
    match ValidatePrevRandao(attrs.inner.prevRandao)
    case Err(e) => Err(e)
    case Ok(_) =>
      if attrs.inner.timestamp <= parentTimestamp
      then Err(InvalidTimestamp(attrs.inner.timestamp, parentTimestamp))
      else Ok(Unit)
  }

  // The node's own attributes for a local build; the beacon root is drawn at random.
  function LocalAttributes(spec: LoadChainSpec, parent: Header, randomRoot: B256): PayloadAttributes {
    var timestamp := WrappingAdd(parent.timestamp, 1, U64_MAX);
    PayloadAttributes(
      timestamp, LOAD_PREVRANDAO,
      if spec.ShanghaiActive(timestamp) then Some(EMPTY_LIST_RLP_LENGTH) else None,
      if spec.CancunActive(timestamp) then Some(randomRoot) else None)
  }

  // The node's own attributes always convert, and pass the builder's check on every parent but one
  // at the last u64 timestamp, where the sum wraps to zero. They carry withdrawals exactly from
  // Shanghai and a beacon root exactly from Cancun on.
  lemma LocalAttributesAreBuildable(spec: LoadChainSpec, parent: Header, randomRoot: B256)
    requires parent.timestamp <= U64_MAX
    ensures TryNew(parent.hash, LocalAttributes(spec, parent, randomRoot)).Ok?
    ensures ValidatePayloadAttributes(
              parent.timestamp, TryNew(parent.hash, LocalAttributes(spec, parent, randomRoot)).value).Ok?
            <==> parent.timestamp < U64_MAX
    ensures
      var attrs := LocalAttributes(spec, parent, randomRoot);
      && (attrs.withdrawalsLength == if spec.ShanghaiActive(attrs.timestamp) then Some(1) else None)
      && (attrs.parentBeaconRoot == if spec.CancunActive(attrs.timestamp) then Some(randomRoot) else None)
      && (parent.timestamp < U64_MAX ==> attrs.timestamp == parent.timestamp + 1)
  {
    if parent.timestamp == U64_MAX {
      assert WrappingAdd(U64_MAX, 1, U64_MAX) == 0;
    }
  }

  // Attributes become those of a build exactly with the constant prev_randao, all of them and
  // unchanged, and begin a build exactly if they are also later than the parent.
  lemma AttributesExactly(parent: Header, attrs: PayloadAttributes)
    ensures
      var converted := TryNew(parent.hash, attrs);
      if attrs.prevRandao == 1
      then converted == Ok(BuilderAttributes(parent.hash, attrs)) &&
           (ValidatePayloadAttributes(parent.timestamp, converted.value).Ok? <==> attrs.timestamp > parent.timestamp)
      else converted == Err(InvalidPrevRandao(attrs.prevRandao))
  {
  }

  // --- Built payloads ---

  datatype Block = Block(parentHash: B256, timestamp: nat, prevRandao: B256, txs: seq<Included>)

  datatype BuiltPayload = BuiltPayload(
    block: Block, fees: nat, requests: Option<seq<nat>>, sidecars: BlobSidecars)

  datatype ConversionError = UnexpectedEip7594Sidecars | UnexpectedEip4844Sidecars | Upstream(code: nat)

  function GuardSidecars(payload: BuiltPayload, maxBlobs: nat): Result<Unit, ConversionError> {
    match payload.sidecars
    case Sidecars7594(_) => Err(UnexpectedEip7594Sidecars)
    case Sidecars4844(list) => if |list| > maxBlobs then Err(UnexpectedEip4844Sidecars) else Ok(Unit)
    case NoSidecars => Ok(Unit)
  }

  datatype EnvelopeV3 = EnvelopeV3(block: Block, blockValue: nat, shouldOverrideBuilder: bool, bundle: seq<Sidecar>)

  function ToEnvelopeV3(payload: BuiltPayload): Result<EnvelopeV3, ConversionError> {
    match GuardSidecars(payload, LOAD_MAX_BLOB_COUNT)
    case Err(e) => Err(e)
    case Ok(_) => Ok(EnvelopeV3(payload.block, payload.fees, false, payload.sidecars.All()))
  }

  // The V4 conversion behind the guard is upstream and may refuse for reasons of its own.
  function ToEnvelopeV4(payload: BuiltPayload, upstream: Result<EnvelopeV3, nat>): Result<EnvelopeV3, ConversionError> {
    match GuardSidecars(payload, LOAD_MAX_BLOB_COUNT)
    case Err(e) => Err(e)
    case Ok(_) =>
      match upstream
      case Ok(envelope) => Ok(envelope)
      case Err(code) => Err(Upstream(code))
  }

  // A payload converts exactly when its sidecars are of the first variant and at most 1024, to an
  // envelope of its own block, fees and sidecars that leaves the choice of the builder alone; and the
  // V4 conversion passes on what upstream makes of the same payloads.
  lemma ConvertsExactlyWhen(payload: BuiltPayload, upstream: Result<EnvelopeV3, nat>)
    ensures ToEnvelopeV3(payload).Ok? <==>
            !payload.sidecars.Sidecars7594? && |payload.sidecars.All()| <= LOAD_MAX_BLOB_COUNT
    ensures ToEnvelopeV3(payload).Ok? ==>
              var envelope := ToEnvelopeV3(payload).value;
              && envelope.block == payload.block && envelope.blockValue == payload.fees
              && !envelope.shouldOverrideBuilder && envelope.bundle == payload.sidecars.All()
    ensures ToEnvelopeV3(payload) == Err(UnexpectedEip7594Sidecars) <==> payload.sidecars.Sidecars7594?
    ensures ToEnvelopeV3(payload).Ok? ==>
              match upstream
              case Ok(envelope) => ToEnvelopeV4(payload, upstream) == Ok(envelope)
              case Err(code) => ToEnvelopeV4(payload, upstream) == Err(Upstream(code))
    ensures ToEnvelopeV3(payload).Err? ==> ToEnvelopeV4(payload, upstream) == Err(ToEnvelopeV3(payload).error)
  {
  }

  ghost predicate BlobsPerSidecar(payload: BuiltPayload, bound: nat) {
    forall s | s in payload.sidecars.All() :: |s.hashes| <= bound
  }

  // The guard counts sidecars. On payloads whose sidecars carry at most `bound` blobs each it
  // therefore caps the blobs at 1024 exactly when `bound` is at most one; the cap on a payload of
  // the builder comes from the selection loop instead.
  lemma GuardCapsBlobsOnlySingly(bound: nat)
    ensures (forall payload: BuiltPayload |
               BlobsPerSidecar(payload, bound) && GuardSidecars(payload, LOAD_MAX_BLOB_COUNT).Ok? ::
               |BundleHashes(payload.sidecars.All())| <= LOAD_MAX_BLOB_COUNT)
            <==> bound <= 1
  {
    if bound <= 1 {
      forall payload: BuiltPayload |
        BlobsPerSidecar(payload, bound) && GuardSidecars(payload, LOAD_MAX_BLOB_COUNT).Ok?
        ensures |BundleHashes(payload.sidecars.All())| <= LOAD_MAX_BLOB_COUNT
      {
        BundleSizeBound(payload.sidecars.All(), bound);
      }
    } else {
      var full := Sidecar(Eip4844, seq(bound, _ => 0));
      var list := seq(LOAD_MAX_BLOB_COUNT, _ => full);
      var payload := BuiltPayload(Block(0, 0, 0, []), 0, None, Sidecars4844(list));
      BundleSizeOfCopies(list, full);
      assert BlobsPerSidecar(payload, bound) && GuardSidecars(payload, LOAD_MAX_BLOB_COUNT).Ok?;
      assert |BundleHashes(payload.sidecars.All())| > LOAD_MAX_BLOB_COUNT;
    }
  }

  lemma {:induction false} BundleSizeBound(sidecars: seq<Sidecar>, bound: nat)
    requires bound <= 1 && forall s | s in sidecars :: |s.hashes| <= bound
    ensures |BundleHashes(sidecars)| <= |sidecars|
  {
    if sidecars != [] {
      BundleSizeBound(sidecars[..|sidecars| - 1], bound);
      assert sidecars[|sidecars| - 1] in sidecars;
    }
  }

  lemma {:induction false} BundleSizeOfCopies(sidecars: seq<Sidecar>, s: Sidecar)
    requires forall k | 0 <= k < |sidecars| :: sidecars[k] == s
    ensures |BundleHashes(sidecars)| == |sidecars| * |s.hashes|
  {
    if sidecars != [] {
      BundleSizeOfCopies(sidecars[..|sidecars| - 1], s);
      assert |sidecars| * |s.hashes| == (|sidecars| - 1) * |s.hashes| + |s.hashes|;
    }
  }

  // --- Execution data, as newPayload carries it ---

  datatype RequestsOrHash = Requests(list: seq<nat>) | RequestsHash(hash: B256)

  datatype PayloadSidecar = PayloadSidecar(
    versionedHashes: Option<seq<nat>>, parentBeaconRoot: Option<B256>, prague: Option<RequestsOrHash>)
  {
    // Upstream accessor: requests given as a hash do not count.
    function RequestList(): Option<seq<nat>> {
      if prague.Some? && prague.value.Requests? then Some(prague.value.list) else None
    }
  }

  datatype ExecutionData = ExecutionData(block: Block, sidecar: PayloadSidecar)

  function DataV1(block: Block): ExecutionData {
    ExecutionData(block, PayloadSidecar(None, None, None))
  }

  function DataV3(block: Block, versionedHashes: seq<nat>, parentBeaconRoot: B256): ExecutionData {
    ExecutionData(block, PayloadSidecar(Some(versionedHashes), Some(parentBeaconRoot), None))
  }

  function DataV4(block: Block, versionedHashes: seq<nat>, parentBeaconRoot: B256, requests: RequestsOrHash)
    : ExecutionData
  {
    ExecutionData(block, PayloadSidecar(Some(versionedHashes), Some(parentBeaconRoot), Some(requests)))
  }
}
