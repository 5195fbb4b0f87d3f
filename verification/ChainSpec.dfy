// The Load chain specification: genesis validation, fork activation and blob parameters.
module ChainSpec {
  import opened Wrappers

  const LOAD_MAX_BLOB_COUNT: nat := 1024
  const LOAD_TARGET_BLOB_COUNT: nat := 512
  const LOAD_MAX_BLOBS_PER_TX: nat := 32
  const LOAD_BLOB_UPDATE_FRACTION: nat := 5_007_716
  // GAS_PER_BLOB of EIP-4844, section "Parameters".
  const GAS_PER_BLOB: nat := 131_072

  const PRE_CANCUN_FORKS: nat := 14

  datatype BlobParams = BlobParams(
    targetBlobCount: nat, maxBlobCount: nat, updateFraction: nat, minBlobFee: nat, maxBlobsPerTx: nat)
  {
    function MaxBlobGasPerBlock(): nat { maxBlobCount * GAS_PER_BLOB }
  }

  // Upstream defaults (EIP-4844 and EIP-7691).
  const CANCUN_PARAMS := BlobParams(3, 6, 3_338_477, 1, 6)
  const OSAKA_PARAMS := BlobParams(6, 9, 5_007_716, 1, 6)

  const LOAD_PARAMS := BlobParams(
    LOAD_TARGET_BLOB_COUNT, LOAD_MAX_BLOB_COUNT, LOAD_BLOB_UPDATE_FRACTION,
    CANCUN_PARAMS.minBlobFee, LOAD_MAX_BLOBS_PER_TX)

  // --- Genesis ---

  // The fork configuration of a genesis, as a value. `preCancun` holds the block numbers of the
  // fourteen forks from Homestead to Gray Glacier, in the order in which validation visits them.
  datatype ForkConfig = ForkConfig(
    cancunTime: Option<nat>,
    terminalTotalDifficulty: Option<nat>,
    terminalTotalDifficultyPassed: bool,
    mergeNetsplitBlock: Option<nat>,
    preCancun: seq<Option<nat>>,
    shanghaiTime: Option<nat>,
    pragueTime: Option<nat>,
    osakaTime: Option<nat>)

  datatype GenesisError =
    | CancunNotAtGenesis(cancunTime: Option<nat>)
    | DifficultyNotZero(got: nat)
    | MergeNotAtGenesis(got: nat)
    | ForkNotAtGenesis(got: nat)
    | ShanghaiNotAtGenesis(got: nat)
    | PragueNotAtGenesis(got: nat)

  predicate AbsentOrZero(field: Option<nat>) {
    field == None || field == Some(0)
  }

  // What the network demands of a genesis: an explicit Cancun at 0, nothing else that contradicts it.
  ghost predicate Acceptable(g: ForkConfig) {
    && g.cancunTime == Some(0)
    && AbsentOrZero(g.terminalTotalDifficulty)
    && AbsentOrZero(g.mergeNetsplitBlock)
    && ForksAcceptable(g.preCancun)
    && AbsentOrZero(g.shanghaiTime)
    && AbsentOrZero(g.pragueTime)
  }

  // The one configuration in which everything up to Prague is active at genesis. Osaka is not
  // looked at by validation.
  function Canonical(osakaTime: Option<nat>): ForkConfig {
    ForkConfig(Some(0), Some(0), true, Some(0), seq(PRE_CANCUN_FORKS, _ => Some(0)), Some(0), Some(0), osakaTime)
  }

  predicate FillsGap(before: Option<nat>, now: Option<nat>) {
    before.Some? ==> now == before
  }

  // `now` differs from `before` only where `before` had no value.
  ghost predicate FillsOnlyGaps(before: ForkConfig, now: ForkConfig) {
    && now.cancunTime == before.cancunTime
    && now.osakaTime == before.osakaTime
    && FillsGap(before.terminalTotalDifficulty, now.terminalTotalDifficulty)
    && FillsGap(before.mergeNetsplitBlock, now.mergeNetsplitBlock)
    && |now.preCancun| == |before.preCancun|
    && (forall k | 0 <= k < |now.preCancun| :: FillsGap(before.preCancun[k], now.preCancun[k]))
    && FillsGap(before.shanghaiTime, now.shanghaiTime)
    && FillsGap(before.pragueTime, now.pragueTime)
  }

  // The loop over the pre-Cancun forks: stops at the first one that is not at block 0.
  method FillForks(forks: array<Option<nat>>) returns (offending: Option<nat>)
    modifies forks
    ensures |forks[..]| == |old(forks[..])|
    ensures forall k | 0 <= k < forks.Length :: FillsGap(old(forks[..])[k], forks[..][k])
    ensures offending.None? ==>
              ForksAcceptable(old(forks[..])) && forks[..] == seq(forks.Length, _ => Some(0))
    ensures offending.Some? ==>
              offending.value != 0 && exists k | 0 <= k < forks.Length ::
                old(forks[..])[k] == offending && ForksAcceptable(old(forks[..])[..k])
  {
    ghost var before := forks[..];
    var k := 0;
    while k < forks.Length
      invariant 0 <= k <= forks.Length
      invariant forall j | 0 <= j < k :: AbsentOrZero(before[j]) && forks[j] == Some(0)
      invariant forall j | k <= j < forks.Length :: forks[j] == before[j]
    {
      if forks[k].Some? {
        if forks[k].value != 0 {
          assert before[k] == forks[k] && ForksAcceptable(before[..k]);
          return forks[k];
        }
      } else {
        forks[k] := Some(0);
      }
      k := k + 1;
    }
    return None;
  }

  class GenesisConfig {
    var cancunTime: Option<nat>
    var terminalTotalDifficulty: Option<nat>
    var terminalTotalDifficultyPassed: bool
    var mergeNetsplitBlock: Option<nat>
    const preCancun: array<Option<nat>>
    var shanghaiTime: Option<nat>
    var pragueTime: Option<nat>
    var osakaTime: Option<nat>

    ghost predicate Valid() {
      preCancun.Length == PRE_CANCUN_FORKS
    }

    ghost function Snapshot(): ForkConfig
      reads this, preCancun
    {
      ForkConfig(cancunTime, terminalTotalDifficulty, terminalTotalDifficultyPassed, mergeNetsplitBlock,
                 preCancun[..], shanghaiTime, pragueTime, osakaTime)
    }

    constructor (g: ForkConfig)
      requires |g.preCancun| == PRE_CANCUN_FORKS
      ensures Valid() && Snapshot() == g
      ensures fresh(preCancun)
    {
      cancunTime := g.cancunTime;
      terminalTotalDifficulty := g.terminalTotalDifficulty;
      terminalTotalDifficultyPassed := g.terminalTotalDifficultyPassed;
      mergeNetsplitBlock := g.mergeNetsplitBlock;
      preCancun := new Option<nat>[PRE_CANCUN_FORKS](k requires 0 <= k < PRE_CANCUN_FORKS => g.preCancun[k]);
      shanghaiTime := g.shanghaiTime;
      pragueTime := g.pragueTime;
      osakaTime := g.osakaTime;
      new;
      assert preCancun[..] == g.preCancun;
    }

    // Cancun, the terminal total difficulty and the merge block.
    method ValidateMerge() returns (result: Result<Unit, GenesisError>)
      modifies this`terminalTotalDifficulty, this`terminalTotalDifficultyPassed, this`mergeNetsplitBlock
      ensures result.Ok? <==> MergeAcceptable(old(Snapshot()))
      ensures result.Ok? ==> terminalTotalDifficulty == Some(0) && terminalTotalDifficultyPassed
      ensures result.Ok? ==> mergeNetsplitBlock == Some(0)
      ensures FillsGap(old(terminalTotalDifficulty), terminalTotalDifficulty)
      ensures FillsGap(old(mergeNetsplitBlock), mergeNetsplitBlock)
      ensures result.Err? ==> Blames(old(Snapshot()), result.error)
    {
      if cancunTime != Some(0) {
        return Err(CancunNotAtGenesis(cancunTime));
      }
      if terminalTotalDifficulty.Some? && terminalTotalDifficulty.value != 0 {
        return Err(DifficultyNotZero(terminalTotalDifficulty.value));
      } else if terminalTotalDifficulty.None? {
        terminalTotalDifficulty := Some(0);
      }
      if !terminalTotalDifficultyPassed {
        terminalTotalDifficultyPassed := true;
      }
      if mergeNetsplitBlock.Some? {
        if mergeNetsplitBlock.value != 0 {
          return Err(MergeNotAtGenesis(mergeNetsplitBlock.value));
        }
      } else {
        mergeNetsplitBlock := Some(0);
      }
      return Ok(Unit);
    }

    // Shanghai and Prague.
    method ValidateTimes() returns (result: Result<Unit, GenesisError>)
      modifies this`shanghaiTime, this`pragueTime
      ensures result.Ok? <==> AbsentOrZero(old(shanghaiTime)) && AbsentOrZero(old(pragueTime))
      ensures result.Ok? ==> shanghaiTime == pragueTime == Some(0)
      ensures FillsGap(old(shanghaiTime), shanghaiTime) && FillsGap(old(pragueTime), pragueTime)
      ensures result.Err? ==>
                if AbsentOrZero(old(shanghaiTime))
                then old(pragueTime).Some? && result.error == PragueNotAtGenesis(old(pragueTime).value)
                else old(shanghaiTime).Some? && result.error == ShanghaiNotAtGenesis(old(shanghaiTime).value)
    {
      if shanghaiTime.Some? {
        if shanghaiTime.value != 0 {
          return Err(ShanghaiNotAtGenesis(shanghaiTime.value));
        }
      } else {
        shanghaiTime := Some(0);
      }
      if pragueTime.Some? {
        if pragueTime.value != 0 {
          return Err(PragueNotAtGenesis(pragueTime.value));
        }
      } else {
        pragueTime := Some(0);
      }
      return Ok(Unit);
    }

    // Checks the configuration and fills in what it leaves out. Accepts exactly the acceptable
    // configurations and leaves each of them canonical; never overwrites a given value; and an
    // error names the first value that is given and is not zero.
    method Validate() returns (result: Result<Unit, GenesisError>)
      requires Valid()
      modifies this, preCancun
      ensures Valid()
      ensures result.Ok? <==> Acceptable(old(Snapshot()))
      ensures result.Ok? ==> Snapshot() == Canonical(old(osakaTime))
      ensures FillsOnlyGaps(old(Snapshot()), Snapshot())
      ensures result.Err? ==> Blames(old(Snapshot()), result.error)
    {
      ghost var before := Snapshot();
      var merge := ValidateMerge();
      if merge.Err? {
        return merge;
      }
      var offending := FillForks(preCancun);
      if offending.Some? {
        return Err(ForkNotAtGenesis(offending.value));
      }
      result := ValidateTimes();
      assert preCancun[..] == seq(PRE_CANCUN_FORKS, _ => Some(0));
    }
  }

  ghost predicate ForksAcceptable(forks: seq<Option<nat>>) {
    forall k | 0 <= k < |forks| :: AbsentOrZero(forks[k])
  }

  ghost predicate MergeAcceptable(g: ForkConfig) {
    g.cancunTime == Some(0) && AbsentOrZero(g.terminalTotalDifficulty) && AbsentOrZero(g.mergeNetsplitBlock)
  }

  // An error reports the first offending field: everything checked before it was in order.
  ghost predicate Blames(g: ForkConfig, e: GenesisError) {
    match e
    case CancunNotAtGenesis(got) => g.cancunTime == got != Some(0)
    case DifficultyNotZero(got) => g.cancunTime == Some(0) && g.terminalTotalDifficulty == Some(got) && got != 0
    case MergeNotAtGenesis(got) =>
      && g.cancunTime == Some(0) && AbsentOrZero(g.terminalTotalDifficulty)
      && g.mergeNetsplitBlock == Some(got) && got != 0
    case ForkNotAtGenesis(got) =>
      && MergeAcceptable(g) && got != 0
      && exists k | 0 <= k < |g.preCancun| :: g.preCancun[k] == Some(got) && ForksAcceptable(g.preCancun[..k])
    case ShanghaiNotAtGenesis(got) =>
      && MergeAcceptable(g) && ForksAcceptable(g.preCancun)
      && g.shanghaiTime == Some(got) && got != 0
    case PragueNotAtGenesis(got) =>
      && MergeAcceptable(g) && ForksAcceptable(g.preCancun) && AbsentOrZero(g.shanghaiTime)
      && g.pragueTime == Some(got) && got != 0
  }

  // The canonical configuration is itself acceptable and canonical, so validating again changes
  // nothing, and it is the only acceptable way to fill every gap of an acceptable genesis.
  lemma CanonicalIsTheOnlyCompletion(g: ForkConfig, filled: ForkConfig)
    requires |g.preCancun| == PRE_CANCUN_FORKS && Acceptable(g)
    requires FillsOnlyGaps(g, filled) && Acceptable(filled) && filled.terminalTotalDifficultyPassed
    requires filled.terminalTotalDifficulty.Some? && filled.mergeNetsplitBlock.Some?
    requires filled.shanghaiTime.Some? && filled.pragueTime.Some?
    requires forall k | 0 <= k < |filled.preCancun| :: filled.preCancun[k].Some?
    ensures filled == Canonical(g.osakaTime)
    ensures Acceptable(Canonical(g.osakaTime))
    ensures Canonical(Canonical(g.osakaTime).osakaTime) == Canonical(g.osakaTime)
  {
    assert filled.preCancun == Canonical(g.osakaTime).preCancun;
  }

  // --- The chain specification ---

  // Fork activation times (None: never) and the blob parameters of each fork.
  datatype LoadChainSpec = LoadChainSpec(
    shanghaiTime: Option<nat>,
    cancunTime: Option<nat>,
    pragueTime: Option<nat>,
    osakaTime: Option<nat>,
    cancunParams: BlobParams,
    pragueParams: BlobParams,
    osakaParams: BlobParams,
    scheduled: seq<(nat, BlobParams)>)
  {
    predicate ShanghaiActive(timestamp: nat) { Active(shanghaiTime, timestamp) }
    predicate CancunActive(timestamp: nat) { Active(cancunTime, timestamp) }
    predicate PragueActive(timestamp: nat) { Active(pragueTime, timestamp) }
    predicate OsakaActive(timestamp: nat) { Active(osakaTime, timestamp) }

    // Upstream lookup: the latest scheduled entry that has started, else the latest active fork.
    function BlobParamsAt(timestamp: nat): Option<BlobParams> {
      match LatestScheduled(scheduled, timestamp)
      case Some(params) => Some(params)
      case None =>
        if OsakaActive(timestamp) then Some(osakaParams)
        else if PragueActive(timestamp) then Some(pragueParams)
        else if CancunActive(timestamp) then Some(cancunParams)
        else None
    }
  }

  predicate Active(activation: Option<nat>, timestamp: nat) {
    activation.Some? && activation.value <= timestamp
  }

  function LatestScheduled(scheduled: seq<(nat, BlobParams)>, timestamp: nat): Option<BlobParams> {
    if scheduled == [] then None
    else if scheduled[|scheduled| - 1].0 <= timestamp then Some(scheduled[|scheduled| - 1].1)
    else LatestScheduled(scheduled[..|scheduled| - 1], timestamp)
  }

  // Validates the genesis and overrides the blob parameters of Cancun and Prague.
  method FromGenesis(genesis: GenesisConfig) returns (result: Result<LoadChainSpec, GenesisError>)
    requires genesis.Valid()
    modifies genesis, genesis.preCancun
    ensures result.Ok? <==> Acceptable(old(genesis.Snapshot()))
    ensures result.Ok? ==> result.value == SpecOf(old(genesis.osakaTime))
    ensures result.Err? ==> Blames(old(genesis.Snapshot()), result.error)
  {
    var verdict := genesis.Validate();
    if verdict.Err? {
      return Err(verdict.error);
    }
    var inner := LoadChainSpec(
      genesis.shanghaiTime, genesis.cancunTime, genesis.pragueTime, genesis.osakaTime,
      LOAD_PARAMS, LOAD_PARAMS, OSAKA_PARAMS, []);
    return Ok(inner);
  }

  // The specification of a validated genesis depends on its Osaka time alone.
  function SpecOf(osakaTime: Option<nat>): LoadChainSpec {
    LoadChainSpec(Some(0), Some(0), Some(0), osakaTime, LOAD_PARAMS, LOAD_PARAMS, OSAKA_PARAMS, [])
  }

  // --- The builder's blob cap ---

  function ComputeLoadBlobCap(spec: LoadChainSpec, timestamp: nat): (cap: nat)
    ensures cap <= LOAD_MAX_BLOB_COUNT
  {
    var fromSpec := match spec.BlobParamsAt(timestamp)
      case Some(params) => params.maxBlobCount
      case None => LOAD_MAX_BLOB_COUNT;
    if fromSpec <= LOAD_MAX_BLOB_COUNT then fromSpec else LOAD_MAX_BLOB_COUNT
  }

  // The cap is never above what the chain says for the timestamp, and below 1024 only if the chain
  // says so.
  lemma CapExactly(spec: LoadChainSpec, timestamp: nat)
    ensures
      var cap, own := ComputeLoadBlobCap(spec, timestamp), spec.BlobParamsAt(timestamp);
      && (own.Some? ==> cap <= own.value.maxBlobCount)
      && (cap == LOAD_MAX_BLOB_COUNT || (own.Some? && cap == own.value.maxBlobCount))
  {
  }

  // The entry that counts is the last of the schedule that has started.
  lemma {:induction false} ScheduleExactly(scheduled: seq<(nat, BlobParams)>, timestamp: nat)
    ensures LatestScheduled(scheduled, timestamp).None? <==>
            forall k | 0 <= k < |scheduled| :: scheduled[k].0 > timestamp
    ensures LatestScheduled(scheduled, timestamp).Some? ==>
              exists k | 0 <= k < |scheduled| ::
                && scheduled[k].0 <= timestamp && LatestScheduled(scheduled, timestamp) == Some(scheduled[k].1)
                && forall j | k < j < |scheduled| :: scheduled[j].0 > timestamp
  {
    if scheduled != [] {
      var last := |scheduled| - 1;
      if scheduled[last].0 > timestamp {
        ScheduleExactly(scheduled[..last], timestamp);
        if LatestScheduled(scheduled, timestamp).Some? {
          var k :| 0 <= k < last && scheduled[..last][k].0 <= timestamp &&
                   LatestScheduled(scheduled[..last], timestamp) == Some(scheduled[..last][k].1) &&
                   forall j | k < j < last :: scheduled[..last][j].0 > timestamp;
          forall j | k < j < |scheduled| ensures scheduled[j].0 > timestamp {
            if j < last { assert scheduled[..last][j].0 > timestamp; }
          }
        }
      }
    }
  }

  // Which forks are active and which parameters hold on the chain of a genesis: every fork up to
  // Prague from the start, Osaka from its own time on if it has one, and Load's parameters until then.
  lemma GenesisChainExactly(osakaTime: Option<nat>, timestamp: nat)
    ensures
      var spec := SpecOf(osakaTime);
      && spec.ShanghaiActive(timestamp) && spec.CancunActive(timestamp) && spec.PragueActive(timestamp)
      && (spec.OsakaActive(timestamp) <==> osakaTime.Some? && osakaTime.value <= timestamp)
      && spec.BlobParamsAt(timestamp) ==
         Some(if osakaTime.Some? && osakaTime.value <= timestamp then BlobParams(6, 9, 5_007_716, 1, 6)
              else BlobParams(512, 1024, 5_007_716, 1, 32))
  {
    assert LatestScheduled([], timestamp) == None;
  }

  // On a chain made from a genesis the cap is 1024 exactly until Osaka, and 9 from Osaka on.
  lemma CapOfValidatedChain(osakaTime: Option<nat>, timestamp: nat)
    ensures ComputeLoadBlobCap(SpecOf(osakaTime), timestamp) ==
            if SpecOf(osakaTime).OsakaActive(timestamp) then OSAKA_PARAMS.maxBlobCount else LOAD_MAX_BLOB_COUNT
    ensures ComputeLoadBlobCap(SpecOf(osakaTime), timestamp) == LOAD_MAX_BLOB_COUNT
            <==> osakaTime.None? || timestamp < osakaTime.value
  {
    assert LatestScheduled([], timestamp) == None;
  }
}
