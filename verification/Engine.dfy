// The node's engine pipeline as a state machine: payloads come in over RPC or directly, builds are
// asked for over RPC, directly or locally, and built payloads are stored.
module Engine {
  import opened Wrappers
  import opened ChainSpec
  import opened SelectionResults
  import opened Payload
  import opened Builder
  import opened Validator

  datatype StartedJob = StartedJob(parent: Header, attrs: BuilderAttributes)

  datatype StoredPayload = StoredPayload(job: StartedJob, payload: BuiltPayload)

  datatype Node = Node(
    spec: LoadChainSpec,
    converted: seq<ExecutionData>,     // what convert_payload_to_block turned into blocks
    jobs: seq<StartedJob>,
    payloads: seq<StoredPayload>)

  // `fields`, `wellFormed` and `attributes` are the verdicts of the upstream checks behind the
  // Load guards.
  datatype Action =
    | RpcNewPayload(call: NewPayload, fields: bool, wellFormed: bool)
    | HandleNewPayload(data: ExecutionData, wellFormed: bool)
    | RpcForkchoice(version: nat, head: Header, attrs: PayloadAttributes, attributes: bool)
    | HandleForkchoice(head: Header, attrs: PayloadAttributes)
    | LocalForkchoice(head: Header, randomRoot: B256)
    | Build(job: nat, best: Option<nat>, env: BuildEnv)

  function Start(spec: LoadChainSpec): Node {
    Node(spec, [], [], [])
  }

  // The engine handle: conversion, whoever called it.
  function Deliver(node: Node, data: ExecutionData, wellFormed: bool): (Node, Result<Unit, ValidationError>) {
    match ConvertPayloadToBlock(node.spec, data, wellFormed)
    case Ok(_) => (node.(converted := node.converted + [data]), Ok(Unit))
    case Err(e) => (node, Err(e))
  }

  // A build is started only through TryNew.
  function StartJob(node: Node, head: Header, attrs: PayloadAttributes): (Node, Result<Unit, ValidationError>) {
    match TryNew(head.hash, attrs)
    case Ok(valid) => (node.(jobs := node.jobs + [StartedJob(head, valid)]), Ok(Unit))
    case Err(e) => (node, Err(Attributes(e)))
  }

  function BestOf(node: Node, best: Option<nat>): Option<BuiltPayload> {
    if best.Some? && best.value < |node.payloads| then Some(node.payloads[best.value].payload) else None
  }

  function ArgsOf(node: Node, job: nat, best: Option<nat>): BuildArgs
    requires job < |node.jobs|
  {
    BuildArgs(node.jobs[job].parent, node.jobs[job].attrs, BestOf(node, best))
  }

  // A step, and its answer to the caller.
  function Step(node: Node, a: Action): (Node, Result<Unit, ValidationError>) {
    match a
    case RpcNewPayload(call, fields, wellFormed) =>
      (match RpcGuard(call)
       case Err(e) => (node, Err(e))
       case Ok(_) =>
         match ValidatePayloadFields(node.spec, DataOf(call), fields)
         case Err(e) => (node, Err(e))
         case Ok(_) => Deliver(node, DataOf(call), wellFormed))
    case HandleNewPayload(data, wellFormed) => Deliver(node, data, wellFormed)
    case RpcForkchoice(version, head, attrs, attributes) =>
      (match if version >= 3 then EnsureLoadPrevRandao(attrs.prevRandao) else Ok(Unit)
       case Err(e) => (node, Err(e))
       case Ok(_) =>
         match EnsureWellFormedAttributes(attrs, attributes)
         case Err(e) => (node, Err(e))
         case Ok(_) => StartJob(node, head, attrs))
    case HandleForkchoice(head, attrs) => StartJob(node, head, attrs)
    case LocalForkchoice(head, randomRoot) => StartJob(node, head, LocalAttributes(node.spec, head, randomRoot))
    case Build(job, best, env) =>
      if job >= |node.jobs| then (node, Ok(Unit))
      else
        match Outcome(ArgsOf(node, job, best), env)
        case Better(payload) =>
          (node.(payloads := node.payloads + [StoredPayload(node.jobs[job], payload)]), Ok(Unit))
        case _ => (node, Ok(Unit))
  }

  // Builds run on the node's own chain and meet surroundings that keep their contracts.
  ghost predicate Faithful(node: Node, a: Action) {
    a.Build? && a.job < |node.jobs| ==>
      a.env.spec == node.spec && BuildContract(ArgsOf(node, a.job, a.best), a.env)
  }

  ghost predicate FaithfulRun(spec: LoadChainSpec, actions: seq<Action>) {
    actions == [] ||
    (FaithfulRun(spec, actions[..|actions| - 1]) &&
     Faithful(Run(spec, actions[..|actions| - 1]), actions[|actions| - 1]))
  }

  function Run(spec: LoadChainSpec, actions: seq<Action>): Node {
    if actions == [] then Start(spec)
    else Step(Run(spec, actions[..|actions| - 1]), actions[|actions| - 1]).0
  }

  // --- Safety ---

  ghost predicate SafeData(spec: LoadChainSpec, data: ExecutionData) {
    && data.block.prevRandao == LOAD_PREVRANDAO
    && (data.sidecar.versionedHashes.Some? ==> |data.sidecar.versionedHashes.value| <= LOAD_MAX_BLOB_COUNT)
    && (data.sidecar.RequestList().Some? ==> spec.PragueActive(data.block.timestamp))
  }

  ghost predicate SafePayload(spec: LoadChainSpec, stored: StoredPayload) {
    WellBuilt(spec, stored.job.parent, stored.job.attrs, stored.payload)
  }

  ghost predicate Safe(node: Node) {
    && (forall k | 0 <= k < |node.converted| :: SafeData(node.spec, node.converted[k]))
    && (forall k | 0 <= k < |node.jobs| :: node.jobs[k].attrs.inner.prevRandao == LOAD_PREVRANDAO)
    && (forall k | 0 <= k < |node.payloads| :: SafePayload(node.spec, node.payloads[k]))
  }

  lemma StepKeepsSafe(node: Node, a: Action)
    requires Safe(node) && Faithful(node, a)
    ensures Safe(Step(node, a).0) && Step(node, a).0.spec == node.spec
  {
    if a.Build? && a.job < |node.jobs| && Outcome(ArgsOf(node, a.job, a.best), a.env).Better? {
      BetterIsWellBuilt(ArgsOf(node, a.job, a.best), a.env);
    }
  }

  // In every run, whichever way payloads and attributes come in: every converted payload has the
  // constant prev_randao, at most 1024 versioned hashes and requests only from Prague on; every
  // started build has the constant prev_randao; and every built block is later than its parent and
  // within the caps.
  lemma {:induction false} WholeRunSafety(spec: LoadChainSpec, actions: seq<Action>)
    requires FaithfulRun(spec, actions)
    ensures Safe(Run(spec, actions)) && Run(spec, actions).spec == spec
  {
    if actions != [] {
      WholeRunSafety(spec, actions[..|actions| - 1]);
      StepKeepsSafe(Run(spec, actions[..|actions| - 1]), actions[|actions| - 1]);
    }
  }

  // A payload sent over RPC or handed over directly is converted exactly when it is safe and upstream
  // has no objection: the RPC guards refuse nothing more. A refused payload leaves the node as it was.
  lemma PayloadIsConvertedExactlyWhenSafe(node: Node, call: NewPayload, fields: bool, wellFormed: bool)
    ensures
      var (after, answer) := Step(node, RpcNewPayload(call, fields, wellFormed));
      && (answer.Ok? <==> SafeData(node.spec, DataOf(call)) && fields && wellFormed)
      && after == if answer.Ok? then node.(converted := node.converted + [DataOf(call)]) else node
    ensures
      var (after, answer) := Step(node, HandleNewPayload(DataOf(call), wellFormed));
      && (answer.Ok? <==> SafeData(node.spec, DataOf(call)) && wellFormed)
      && after == if answer.Ok? then node.(converted := node.converted + [DataOf(call)]) else node
  {
  }

  // The attribute guards refuse exactly the attributes TryNew refuses, at every version.
  lemma AttributeGuardsAgree(node: Node, version: nat, head: Header, attrs: PayloadAttributes)
    ensures Step(node, RpcForkchoice(version, head, attrs, true)).1.Ok? <==> TryNew(head.hash, attrs).Ok?
    ensures Step(node, RpcForkchoice(version, head, attrs, true)).0 == Step(node, HandleForkchoice(head, attrs)).0
  {
  }

  // A request for a build is accepted exactly with the constant prev_randao and if upstream agrees,
  // over RPC or directly. It then starts one build, on the given head and with the given attributes,
  // and nothing otherwise. The node's own request is always accepted.
  lemma BuildIsStartedExactlyWhen(node: Node, version: nat, head: Header, attrs: PayloadAttributes, upstreamOk: bool)
    ensures
      var (after, answer) := Step(node, RpcForkchoice(version, head, attrs, upstreamOk));
      && (answer.Ok? <==> attrs.prevRandao == LOAD_PREVRANDAO && upstreamOk)
      && after == if answer.Ok? then WithBuild(node, head, attrs) else node
    ensures
      var (after, answer) := Step(node, HandleForkchoice(head, attrs));
      && (answer.Ok? <==> attrs.prevRandao == LOAD_PREVRANDAO)
      && after == if answer.Ok? then WithBuild(node, head, attrs) else node
    ensures forall root ::
              Step(node, LocalForkchoice(head, root)) ==
              (WithBuild(node, head, LocalAttributes(node.spec, head, root)), Ok(Unit))
  {
  }

  function WithBuild(node: Node, head: Header, attrs: PayloadAttributes): Node {
    Node(node.spec, node.converted,
         node.jobs + [StartedJob(head, BuilderAttributes(head.hash, attrs))], node.payloads)
  }

  // A build stores its payload, under its own job, exactly when it is better than the stored payload
  // it was compared with; whatever else it comes to changes nothing.
  lemma BuildIsStoredExactlyWhenBetter(node: Node, job: nat, best: nat, env: BuildEnv)
    requires job < |node.jobs| && best < |node.payloads|
    ensures
      var args := BuildArgs(node.jobs[job].parent, node.jobs[job].attrs, Some(node.payloads[best].payload));
      var outcome, after := Outcome(args, env), Step(node, Build(job, Some(best), env)).0;
      if outcome.Better? then
        && after.payloads == node.payloads + [StoredPayload(node.jobs[job], outcome.payload)]
        && after.payloads[|node.payloads|].payload.fees > node.payloads[best].payload.fees
        && after.(payloads := node.payloads) == node
      else after == node
    ensures
      var args := BuildArgs(node.jobs[job].parent, node.jobs[job].attrs, None);
      var outcome, after := Outcome(args, env), Step(node, Build(job, None, env)).0;
      if outcome.Better? then
        && after.payloads == node.payloads + [StoredPayload(node.jobs[job], outcome.payload)]
        && after.(payloads := node.payloads) == node
      else after == node
  {
    OutcomeComparesFees(ArgsOf(node, job, Some(best)), env);
  }

  // --- The node's own output passes the node's own guards ---

  // How a built payload comes back: with its bundle's versioned hashes and, if it has any, its requests.
  function Resubmit(payload: BuiltPayload, root: B256): NewPayload {
    var hashes := BundleHashes(payload.sidecars.All());
    match payload.requests
    case Some(list) => V4(payload.block, hashes, root, Requests(list))
    case None => V3(payload.block, hashes, root)
  }

  // Every payload built before Osaka converts to V3 with at most 1024 blobs, passes the guard of
  // the V4 conversion, and coming back passes the RPC and the validator guards; after Osaka the
  // only payloads that convert are those without blobs.
  lemma WellBuiltRoundTrip(
    spec: LoadChainSpec, parent: Header, attrs: BuilderAttributes, payload: BuiltPayload, root: B256)
    requires WellBuilt(spec, parent, attrs, payload)
    ensures ToEnvelopeV3(payload).Ok? <==> !payload.sidecars.Sidecars7594?
    ensures !spec.OsakaActive(payload.block.timestamp) ==>
              && ToEnvelopeV3(payload).Ok?
              && ToEnvelopeV3(payload).value.block == payload.block
              && ToEnvelopeV3(payload).value.blockValue == payload.fees
              && BundleHashes(ToEnvelopeV3(payload).value.bundle) == BlockHashes(payload.block.txs)
              && |BundleHashes(ToEnvelopeV3(payload).value.bundle)| <= LOAD_MAX_BLOB_COUNT
    ensures !spec.OsakaActive(payload.block.timestamp) ==>
              forall upstream :: ToEnvelopeV4(payload, Ok(upstream)) == Ok(upstream)
    ensures RpcGuard(Resubmit(payload, root)).Ok?
    ensures EnsureLoadPayloadInvariants(spec, DataOf(Resubmit(payload, root))).Ok?
    ensures
      var data := DataOf(Resubmit(payload, root));
      && data.block == payload.block && data.sidecar.parentBeaconRoot == Some(root)
      && data.sidecar.versionedHashes == Some(BlockHashes(payload.block.txs))
      && data.sidecar.RequestList() == payload.requests
  {
  }

  // In every reachable state each stored payload, sent back, is converted, unless upstream objects.
  lemma StoredPayloadsComeBack(spec: LoadChainSpec, actions: seq<Action>, k: nat, root: B256)
    requires FaithfulRun(spec, actions) && k < |Run(spec, actions).payloads|
    ensures
      var node, call := Run(spec, actions), Resubmit(Run(spec, actions).payloads[k].payload, root);
      Step(node, RpcNewPayload(call, true, true)) == (node.(converted := node.converted + [DataOf(call)]), Ok(Unit))
  {
    WholeRunSafety(spec, actions);
    var stored := Run(spec, actions).payloads[k];
    assert SafePayload(spec, stored);
    WellBuiltRoundTrip(spec, stored.job.parent, stored.job.attrs, stored.payload, root);
  }

  // On a chain made from a genesis every build before Osaka may use the full 1024 blobs, and no
  // payload of any run exceeds 9 from Osaka on.
  lemma StoredPayloadsWithinCap(osakaTime: Option<nat>, actions: seq<Action>, k: nat)
    requires FaithfulRun(SpecOf(osakaTime), actions) && k < |Run(SpecOf(osakaTime), actions).payloads|
    ensures
      var payload := Run(SpecOf(osakaTime), actions).payloads[k].payload;
      |BundleHashes(payload.sidecars.All())| <=
      if SpecOf(osakaTime).OsakaActive(payload.block.timestamp) then 9 else LOAD_MAX_BLOB_COUNT
  {
    WholeRunSafety(SpecOf(osakaTime), actions);
    var stored := Run(SpecOf(osakaTime), actions).payloads[k];
    assert SafePayload(SpecOf(osakaTime), stored);
    CapOfValidatedChain(osakaTime, stored.payload.block.timestamp);
  }
}
