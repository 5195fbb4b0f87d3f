// The payload builder: one build, and sequences of builds.
module Builder {
  import opened Wrappers
  import opened ChainSpec
  import opened Pool
  import opened Selection
  import opened SelectionInvariants
  import opened SelectionResults
  import opened SelectionSteps
  import opened Payload

  datatype BuildArgs = BuildArgs(parent: Header, attrs: BuilderAttributes, best: Option<BuiltPayload>)

  // What opening a block on the parent yields, and what sealing it yields.
  datatype Opened = Opened(gasLimit: nat, baseFee: nat, chain: ChainState)

  datatype Sealed = Sealed(requests: seq<nat>, rlpLength: nat)

  // Everything a build meets: the chain, the state provider and block builder, the pool's feed and
  // the surroundings of the selection loop.
  datatype BuildEnv = BuildEnv(
    spec: LoadChainSpec,
    open: Result<Opened, nat>,
    feed: seq<Tx>,
    surroundings: Surroundings,
    seal: (ChainState, seq<Included>) -> Result<Sealed, nat>)

  datatype BuildError =
    | BadAttributes(error: AttributesError)
    | OpenFailed(code: nat)
    | StoreFailed(code: nat)
    | EvmFailed(code: nat)
    | Panicked
    | SealFailed(code: nat)
    | BlockTooLarge(rlpLength: nat)
    | MissingPayload

  datatype BuildOutcome =
    | Better(payload: BuiltPayload)
    | Aborted(fees: nat)
    | Cancelled
    | Failed(error: BuildError)
  {
    function IntoPayload(): Option<BuiltPayload> {
      if Better? then Some(payload) else None
    }
  }

  function Ctx(spec: LoadChainSpec, attrs: BuilderAttributes, start: Opened): BlockCtx {
    var timestamp := attrs.inner.timestamp;
    BlockCtx(start.gasLimit, start.baseFee, ComputeLoadBlobCap(spec, timestamp), spec.OsakaActive(timestamp),
             if attrs.inner.withdrawalsLength.Some? then attrs.inner.withdrawalsLength.value else EMPTY_LIST_RLP_LENGTH)
  }

  // Upstream: a build is worth finishing when nothing is held yet or it earns strictly more.
  predicate IsBetterPayload(best: Option<BuiltPayload>, fees: nat) {
    best.None? || fees > best.value.fees
  }

  function StopOutcome(why: Verdict): BuildOutcome {
    match why
    case Cancel => Cancelled
    case FailStore(code) => Failed(StoreFailed(code))
    case FailExec(code) => Failed(EvmFailed(code))
    case _ => Failed(Panicked)
  }

  function SealOutcome(args: BuildArgs, env: BuildEnv, acc: Acc): BuildOutcome {
    var timestamp := args.attrs.inner.timestamp;
    match env.seal(acc.chain, acc.included)
    case Err(code) => Failed(SealFailed(code))
    case Ok(sealed) =>
      if env.spec.OsakaActive(timestamp) && sealed.rlpLength > MAX_RLP_BLOCK_SIZE
      then Failed(BlockTooLarge(sealed.rlpLength))
      else Better(BuiltPayload(
                    Block(args.parent.hash, timestamp, args.attrs.inner.prevRandao, acc.included),
                    acc.fees,
                    if env.spec.PragueActive(timestamp) then Some(sealed.requests) else None,
                    acc.sidecars))
  }

  function Outcome(args: BuildArgs, env: BuildEnv): BuildOutcome {
    match ValidatePayloadAttributes(args.parent.timestamp, args.attrs)
    case Err(e) => Failed(BadAttributes(e))
    case Ok(_) =>
      match env.open
      case Err(code) => Failed(OpenFailed(code))
      case Ok(start) =>
        match Run(Ctx(env.spec, args.attrs, start), env.surroundings, Start(start.chain, env.feed))
        case Stopped(why) => StopOutcome(why)
        case More(_) => Failed(Panicked)
        case Done(c) =>
          if !IsBetterPayload(args.best, c.acc.fees) then Aborted(c.acc.fees)
          else SealOutcome(args, env, c.acc)
  }

  // One build as it is written.
  method DefaultLoadPayload(args: BuildArgs, env: BuildEnv) returns (outcome: BuildOutcome)
    ensures outcome == Outcome(args, env)
  {
    var valid := ValidatePayloadAttributes(args.parent.timestamp, args.attrs);
    if valid.Err? {
      return Failed(BadAttributes(valid.error));
    }
    if env.open.Err? {
      return Failed(OpenFailed(env.open.error));
    }
    var timestamp := args.attrs.inner.timestamp;
    var ctx := Ctx(env.spec, args.attrs, env.open.value);
    var best := new BestTransactions(env.feed);
    var block := new BlockInProgress(env.open.value.chain);
    var failure := block.SelectTransactions(ctx, env.surroundings, best);
    if failure.Some? {
      return StopOutcome(failure.value);
    }
    if !IsBetterPayload(args.best, block.totalFees) {
      return Aborted(block.totalFees);
    }
    var sealed := env.seal(block.state, block.included);
    if sealed.Err? {
      return Failed(SealFailed(sealed.error));
    }
    var requests := None;
    if env.spec.PragueActive(timestamp) {
      requests := Some(sealed.value.requests);
    }
    if ctx.isOsaka && sealed.value.rlpLength > MAX_RLP_BLOCK_SIZE {
      return Failed(BlockTooLarge(sealed.value.rlpLength));
    }
    var header := Block(args.parent.hash, timestamp, args.attrs.inner.prevRandao, block.included);
    return Better(BuiltPayload(header, block.totalFees, requests, block.blobSidecars));
  }

  // --- What a build guarantees ---

  // The contracts of a build's surroundings.
  ghost predicate BuildContract(args: BuildArgs, env: BuildEnv) {
    env.open.Ok? ==>
      var ctx := Ctx(env.spec, args.attrs, env.open.value);
      Contracts(ctx, env.surroundings) && FeedContract(ctx, env.open.value.chain, env.feed)
  }

  // Everything the later stages need of a payload.
  ghost predicate WellBuilt(spec: LoadChainSpec, parent: Header, attrs: BuilderAttributes, payload: BuiltPayload) {
    var block := payload.block;
    && block.parentHash == parent.hash && block.timestamp == attrs.inner.timestamp > parent.timestamp
    && block.prevRandao == LOAD_PREVRANDAO
    && payload.requests.Some? == spec.PragueActive(block.timestamp)
    && (payload.sidecars.Sidecars7594? ==> spec.OsakaActive(block.timestamp))
    && (payload.sidecars.Sidecars4844? ==> !spec.OsakaActive(block.timestamp))
    && BundleHashes(payload.sidecars.All()) == BlockHashes(block.txs)
    && |payload.sidecars.All()| <= |BundleHashes(payload.sidecars.All())|
    && |BundleHashes(payload.sidecars.All())| <= ComputeLoadBlobCap(spec, block.timestamp)
  }

  // Sealing the payload's block on a chain state gives the payload its requests and keeps its size.
  predicate SealsTo(env: BuildEnv, timestamp: nat, st: ChainState, payload: BuiltPayload) {
    var sealed := env.seal(st, payload.block.txs);
    && sealed.Ok?
    && payload.requests == (if env.spec.PragueActive(timestamp) then Some(sealed.value.requests) else None)
    && (env.spec.OsakaActive(timestamp) ==> sealed.value.rlpLength <= MAX_RLP_BLOCK_SIZE)
  }

  // A better payload is the finished selection on the block that was opened, with the fees and the
  // sidecars of that selection, and the requests of its sealing if Prague is active; and a block
  // sealed after Osaka is not too large.
  lemma BetterIsTheFinishedSelection(args: BuildArgs, env: BuildEnv) returns (c: Cursor)
    requires Outcome(args, env).Better?
    ensures env.open.Ok?
    ensures
      var attrs, start := args.attrs.inner, env.open.value;
      var ctx := BlockCtx(start.gasLimit, start.baseFee, ComputeLoadBlobCap(env.spec, attrs.timestamp),
                          env.spec.OsakaActive(attrs.timestamp),
                          match attrs.withdrawalsLength case Some(length) => length case None => 1);
      Run(ctx, env.surroundings, Start(start.chain, env.feed)) == Done(c)
    ensures
      var attrs, payload := args.attrs.inner, Outcome(args, env).payload;
      && payload.block == Block(args.parent.hash, attrs.timestamp, attrs.prevRandao, c.acc.included)
      && payload.fees == c.acc.fees && payload.sidecars == c.acc.sidecars
    ensures
      var timestamp, payload := args.attrs.inner.timestamp, Outcome(args, env).payload;
      var sealed := env.seal(c.acc.chain, payload.block.txs);
      && sealed.Ok?
      && (env.spec.PragueActive(timestamp) ==> payload.requests == Some(sealed.value.requests))
      && (!env.spec.PragueActive(timestamp) ==> payload.requests == None)
      && (env.spec.OsakaActive(timestamp) ==> sealed.value.rlpLength <= MAX_RLP_BLOCK_SIZE)
  {
    c := Run(Ctx(env.spec, args.attrs, env.open.value), env.surroundings,
             Start(env.open.value.chain, env.feed)).final;
  }

  // A better payload is well built, earns the fees of its transactions, and more than the best so far.
  lemma BetterIsWellBuilt(args: BuildArgs, env: BuildEnv)
    requires BuildContract(args, env) && Outcome(args, env).Better?
    ensures WellBuilt(env.spec, args.parent, args.attrs, Outcome(args, env).payload)
    ensures
      var payload := Outcome(args, env).payload;
      && payload.fees == SumFees(env.open.value.baseFee, payload.block.txs)
      && SumGas(payload.block.txs) <= env.open.value.gasLimit
      && (args.best.Some? ==> payload.fees > args.best.value.fees)
    ensures
      var timestamp, payload := args.attrs.inner.timestamp, Outcome(args, env).payload;
      exists st :: SealsTo(env, timestamp, st, payload)
  {
    var c' := BetterIsTheFinishedSelection(args, env);
    assert SealsTo(env, args.attrs.inner.timestamp, c'.acc.chain, Outcome(args, env).payload);
    var ctx := Ctx(env.spec, args.attrs, env.open.value);
    var c := Run(ctx, env.surroundings, Start(env.open.value.chain, env.feed)).final;
    var n := |env.feed| + 1;
    FinishedIsReached(ctx, env.surroundings, env.open.value.chain, env.feed, c);
    ConservationWithBounds(ctx, env.surroundings, env.open.value.chain, env.feed, n, c);
    SidecarAlignment(ctx, env.surroundings, env.open.value.chain, env.feed, n, c);
  }

  // The block is opened: the attributes are in order and the parent's state is there.
  predicate Begins(args: BuildArgs, env: BuildEnv) {
    && args.attrs.inner.prevRandao == LOAD_PREVRANDAO && args.attrs.inner.timestamp > args.parent.timestamp
    && env.open.Ok?
  }

  ghost predicate StopsFor(args: BuildArgs, env: BuildEnv, why: Verdict)
    requires env.open.Ok?
  {
    exists m: nat :: StopsIn(Ctx(env.spec, args.attrs, env.open.value), env.surroundings,
                             Start(env.open.value.chain, env.feed), m, why)
  }

  // A build that goes wrong says what went wrong, and is cancelled only by the flag: the loop's
  // reasons to stop and the answers a build ends with correspond one to one.
  lemma StoppedBuildSaysWhy(args: BuildArgs, env: BuildEnv)
    requires BuildContract(args, env)
    ensures Outcome(args, env).Cancelled? <==> Begins(args, env) && StopsFor(args, env, Cancel)
    ensures forall code :: Outcome(args, env) == Failed(StoreFailed(code)) <==>
                           Begins(args, env) && StopsFor(args, env, FailStore(code))
    ensures forall code :: Outcome(args, env) == Failed(EvmFailed(code)) <==>
                           Begins(args, env) && StopsFor(args, env, FailExec(code))
    ensures Outcome(args, env) != Failed(Panicked)
  {
    if Begins(args, env) {
      var ctx, start := Ctx(env.spec, args.attrs, env.open.value), Start(env.open.value.chain, env.feed);
      RunStopsFor(ctx, env.surroundings, start);
      forall why
        ensures Run(ctx, env.surroundings, start) == Stopped(why) <==> StopsFor(args, env, why)
      {
        StopsExactlyWhen(ctx, env.surroundings, env.open.value.chain, env.feed, why);
      }
    }
  }

  // A build whose loop finishes is given up for its fees exactly when something that earns no less
  // is held, and otherwise fails only where sealing does or where the sealed block is too large.
  lemma FinishedBuildEnds(args: BuildArgs, env: BuildEnv, c: Cursor)
    requires Begins(args, env)
    requires Run(Ctx(env.spec, args.attrs, env.open.value), env.surroundings,
                 Start(env.open.value.chain, env.feed)) == Done(c)
    ensures
      var outcome, sealed := Outcome(args, env), env.seal(c.acc.chain, c.acc.included);
      var worse := args.best.Some? && args.best.value.fees >= c.acc.fees;
      var tooLarge := sealed.Ok? && env.spec.OsakaActive(args.attrs.inner.timestamp) &&
                      sealed.value.rlpLength > MAX_RLP_BLOCK_SIZE;
      && (outcome == Aborted(c.acc.fees) <==> worse)
      && (outcome.Aborted? <==> worse)
      && (forall code: nat :: outcome == Failed(SealFailed(code)) <==> !worse && sealed == Err(code))
      && (outcome.Failed? <==> !worse && (sealed.Err? || tooLarge))
      && (tooLarge && !worse ==> outcome == Failed(BlockTooLarge(sealed.value.rlpLength)))
      && (outcome.Better? <==> !worse && sealed.Ok? && !tooLarge)
  {
  }

  // A build that does not begin says which of the checks stopped it.
  lemma RefusedBuildSaysWhy(args: BuildArgs, env: BuildEnv)
    requires !Begins(args, env)
    ensures
      var attrs := args.attrs.inner;
      if attrs.prevRandao != LOAD_PREVRANDAO then
        Outcome(args, env) == Failed(BadAttributes(InvalidPrevRandao(attrs.prevRandao)))
      else if attrs.timestamp <= args.parent.timestamp then
        Outcome(args, env) == Failed(BadAttributes(InvalidTimestamp(attrs.timestamp, args.parent.timestamp)))
      else env.open.Err? && Outcome(args, env) == Failed(OpenFailed(env.open.error))
  {
  }

  // With nothing to compare against and a cancel token nobody else holds, a build ends in a payload
  // or in an error of its own: never in MissingPayload.
  function BuildEmptyPayload(parent: Header, attrs: BuilderAttributes, env: BuildEnv)
    : Result<BuiltPayload, BuildError>
  {
    var uncancelled := env.(surroundings := env.surroundings.(cancelled := _ => false));
    var outcome := Outcome(BuildArgs(parent, attrs, None), uncancelled);
    if outcome.Failed? then Err(outcome.error)
    else match outcome.IntoPayload()
      case Some(payload) => Ok(payload)
      case None => Err(MissingPayload)
  }

  lemma EmptyPayloadIsNeverMissing(parent: Header, attrs: BuilderAttributes, env: BuildEnv)
    requires BuildContract(BuildArgs(parent, attrs, None), env)
    ensures BuildEmptyPayload(parent, attrs, env).Err? ==>
              BuildEmptyPayload(parent, attrs, env).error != MissingPayload &&
              BuildEmptyPayload(parent, attrs, env).error != Panicked
    // It is the build without anything held and without a flag, with its payload or its error.
    ensures
      var outcome := Outcome(BuildArgs(parent, attrs, None),
                             env.(surroundings := env.surroundings.(cancelled := _ => false)));
      match BuildEmptyPayload(parent, attrs, env)
      case Ok(payload) => outcome == Better(payload)
      case Err(error) => outcome == Failed(error)
    ensures BuildEmptyPayload(parent, attrs, env).Ok? ==>
              WellBuilt(env.spec, parent, attrs, BuildEmptyPayload(parent, attrs, env).value)
  {
    var args := BuildArgs(parent, attrs, None);
    var uncancelled := env.(surroundings := env.surroundings.(cancelled := _ => false));
    assert BuildContract(args, uncancelled) by {
      if env.open.Ok? {
        var ctx := Ctx(env.spec, attrs, env.open.value);
        assert ExecutorContract(ctx, env.surroundings) && BlobStoreContract(env.surroundings);
        assert ExecutorContract(ctx, uncancelled.surroundings) && BlobStoreContract(uncancelled.surroundings);
      }
    }
    if env.open.Ok? {
      var start := Start(env.open.value.chain, env.feed);
      RunStopsFor(Ctx(env.spec, attrs, env.open.value), uncancelled.surroundings, start);
    }
    if Outcome(args, uncancelled).Better? { BetterIsWellBuilt(args, uncancelled); }
  }

  // --- Sequences of builds ---

  // The payload held after a build: a better one replaces it.
  function Hold(best: Option<BuiltPayload>, outcome: BuildOutcome): Option<BuiltPayload> {
    if outcome.Better? then Some(outcome.payload) else best
  }

  datatype Job = Job(parent: Header, attrs: BuilderAttributes, env: BuildEnv)

  function OutcomeOf(best: Option<BuiltPayload>, job: Job): BuildOutcome {
    Outcome(BuildArgs(job.parent, job.attrs, best), job.env)
  }

  function BestAfter(jobs: seq<Job>): Option<BuiltPayload> {
    if jobs == [] then None
    else
      var before := BestAfter(jobs[..|jobs| - 1]);
      Hold(before, OutcomeOf(before, jobs[|jobs| - 1]))
  }

  // What the k-th build of a sequence came to.
  function OutcomeAt(jobs: seq<Job>, k: nat): BuildOutcome
    requires k < |jobs|
  {
    OutcomeOf(BestAfter(jobs[..k]), jobs[k])
  }

  // Whatever is held after a sequence of builds earns at least as much as every block any of them
  // came up with, aborted ones included, and strictly more than every payload it replaced.
  lemma {:induction false} HeldPayloadIsTheBest(jobs: seq<Job>, k: nat)
    requires k < |jobs|
    ensures OutcomeAt(jobs, k).Better? ==>
              BestAfter(jobs).Some? && BestAfter(jobs).value.fees >= OutcomeAt(jobs, k).payload.fees
    ensures OutcomeAt(jobs, k).Aborted? ==>
              BestAfter(jobs).Some? && BestAfter(jobs).value.fees >= OutcomeAt(jobs, k).fees
    ensures OutcomeAt(jobs, k).Better? && BestAfter(jobs[..k]).Some? ==>
              OutcomeAt(jobs, k).payload.fees > BestAfter(jobs[..k]).value.fees
    decreases |jobs|
  {
    var last := |jobs| - 1;
    var before := BestAfter(jobs[..last]);
    HoldingImproves(before, jobs[last]);
    if k < last {
      HeldPayloadIsTheBest(jobs[..last], k);
      assert jobs[..last][..k] == jobs[..k];
    }
  }

  // What is held was built: it is the payload of one of the builds.
  lemma {:induction false} HeldPayloadWasBuilt(jobs: seq<Job>) returns (k: nat)
    requires BestAfter(jobs).Some?
    ensures k < |jobs| && OutcomeAt(jobs, k) == Better(BestAfter(jobs).value)
  {
    var last := |jobs| - 1;
    if OutcomeAt(jobs, last).Better? {
      k := last;
    } else {
      k := HeldPayloadWasBuilt(jobs[..last]);
      assert jobs[..last][..k] == jobs[..k];
    }
  }

  // One more build: what is held afterwards earns no less than before, and no less than its block.
  lemma HoldingImproves(before: Option<BuiltPayload>, job: Job)
    ensures
      var outcome := OutcomeOf(before, job);
      var after := Hold(before, outcome);
      && (before.Some? ==> after.Some? && after.value.fees >= before.value.fees)
      && (outcome.Better? ==> after == Some(outcome.payload))
      && (outcome.Aborted? ==> after.Some? && after.value.fees >= outcome.fees)
      && (outcome.Better? && before.Some? ==> outcome.payload.fees > before.value.fees)
  {
    OutcomeComparesFees(BuildArgs(job.parent, job.attrs, before), job.env);
  }

  lemma OutcomeComparesFees(args: BuildArgs, env: BuildEnv)
    ensures
      match Outcome(args, env)
      case Better(payload) => args.best.Some? ==> payload.fees > args.best.value.fees
      case Aborted(fees) => args.best.Some? && fees <= args.best.value.fees
      case _ => true
  {
  }
}
