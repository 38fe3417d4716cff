/** The off-chain agent: snapshots, the decision engine (decisionEngine.ts), intent
    construction (buildIntent.ts), the pipeline's choice of identity (pipeline.ts)
    and the sizing of poolStrategyAnalysis.ts. */
module Agent {
  import opened Clarity
  import opened Engine
  import opened Numbers
  import AgentRegistry
  import StrategyRegistry
  import Vault

  // ---- Snapshots of the chain ----

  datatype StrategySnapshot = StrategySnapshot(id: nat, asset: Asset, maxAllocationBps: nat)

  datatype AssetRisk = AssetRisk(
    maxExposureBps: nat, maxTx: nat, maxSlippageBps: nat, minIdleBps: nat, autonomous: bool, lastNonce: nat)

  datatype VaultSnapshot = VaultSnapshot(
    vault: nat, owner: Principal, supportsAsset: bool, paused: bool, asset: Asset,
    idle: nat, total: nat, allocations: map<nat, nat>, risk: AssetRisk)

  datatype Context = Context(
    height: nat, protocolPaused: bool, strategies: seq<StrategySnapshot>, mainnet: bool, executionEnabled: bool)

  const MAX_STRATEGY_PROBE: nat := 25

  /** The active strategies among ids `id`, `id + 1`, ..., up to the first
      unregistered one and at most MAX_STRATEGY_PROBE. */
  function ActiveFrom(r: StrategyRegistry.State, id: nat): seq<StrategySnapshot>
    decreases MAX_STRATEGY_PROBE + 1 - id
  {
    if id > MAX_STRATEGY_PROBE || id !in r.strategies then []
    else
      var s := r.strategies[id];
      (if s.active then [StrategySnapshot(id, s.asset, NearestDouble(s.maxAllocationBps))] else []) + ActiveFrom(r, id + 1)
  }

  function ContextOf(w: World, height: nat, chainId: nat): Context {
    Context(height, w.admin.paused, ActiveFrom(w.registry, 1), chainId == MAINNET_CHAIN_ID,
            chainId == MAINNET_CHAIN_ID && w.guard.armed)
  }

  function ForAsset(strategies: seq<StrategySnapshot>, asset: Asset): seq<StrategySnapshot> {
    if strategies == [] then []
    else (if strategies[0].asset == asset then [strategies[0]] else []) + ForAsset(strategies[1..], asset)
  }

  /** None when the vault does not exist; a vault without a configuration is an
      error of the reader, and equally yields no snapshot. */
  function SnapshotOf(w: World, ctx: Context, vault: nat, asset: Asset): Option<VaultSnapshot> {
    if vault !in w.funds.vault.vaults || vault !in w.guard.configs then None
    else
      var info, cfg, pool := w.funds.vault.vaults[vault], w.guard.configs[vault], PoolKey(vault, asset);
      var ids := set s | s in ForAsset(ctx.strategies, asset) :: s.id;
      Some(VaultSnapshot(
        vault, info.owner, Vault.SupportsAsset(w.funds.vault, pool), info.paused, asset,
        w.funds.vault.IdleOf(pool), w.funds.vault.TotalOf(pool),
        map id | id in ids :: w.funds.vault.AllocationOf(pool, id),
        AssetRisk(NearestDouble(cfg.params.maxExposureBps),
                  if asset == STX then cfg.params.maxStxTx else cfg.params.maxSbtcTx,
                  NearestDouble(cfg.params.maxSlippageBps), NearestDouble(cfg.params.minIdleBps),
                  cfg.autonomous, NearestDouble(cfg.lastNonce))))
  }

  // ---- The decision engine ----

  datatype Decision = REBALANCE | REDUCE_EXPOSURE | HOLD

  datatype Reason =
    | ProtocolPaused | AssetNotSupported | VaultPaused | EmptyPool | NoStrategy
    | OverExposed | NothingIdle | AtLimits | IdleCapital

  datatype Recommendation = Recommendation(
    decision: Decision, reason: Reason, asset: Asset,
    strategy: Option<nat>, amount: Option<nat>, maxSlippageBps: Option<nat>, deadline: Option<nat>)

  function Hold(v: VaultSnapshot, reason: Reason): Recommendation {
    Recommendation(HOLD, reason, v.asset, None, None, None, None)
  }

  function Min(a: nat, b: nat): nat {
    if a < b then a else b
  }

  function Monus(a: nat, b: nat): nat {
    if a > b then a - b else 0
  }

  /** The idle amount beyond the owner's floor, the floor rounded UP. */
  function IdleAfterReserve(v: VaultSnapshot): nat {
    Monus(v.idle, (v.total * v.risk.minIdleBps + BPS - 1) / BPS)
  }

  function MaxExposureAmount(v: VaultSnapshot): nat {
    v.total * v.risk.maxExposureBps / BPS
  }

  /** The sized amount: the least of four rooms. */
  function SizedAmount(v: VaultSnapshot, s: StrategySnapshot): nat {
    var current := Lookup(v.allocations, s.id);
    var roomUnderExposure := Monus(MaxExposureAmount(v), current);
    var roomUnderProtocol := Monus(v.total * s.maxAllocationBps / BPS, current);
    Min(Min(Min(IdleAfterReserve(v), roomUnderExposure), roomUnderProtocol), v.risk.maxTx)
  }

  function Analyze(v: VaultSnapshot, ctx: Context, deadlineWindow: nat): Recommendation {
    var candidates := ForAsset(ctx.strategies, v.asset);
    if ctx.protocolPaused then Hold(v, ProtocolPaused)
    else if !v.supportsAsset then Hold(v, AssetNotSupported)
    else if v.paused then Hold(v, VaultPaused)
    else if v.total == 0 then Hold(v, EmptyPool)
    else if candidates == [] then Hold(v, NoStrategy)
    else
      var s := candidates[0];
      var current := Lookup(v.allocations, s.id);
      if current > MaxExposureAmount(v) then
        Recommendation(REDUCE_EXPOSURE, OverExposed, v.asset, Some(s.id), Some(current - MaxExposureAmount(v)), None, None)
      else if v.idle == 0 then Hold(v, NothingIdle)
      else if SizedAmount(v, s) == 0 then Hold(v, AtLimits)
      else
        Recommendation(REBALANCE, IdleCapital, v.asset, Some(s.id), Some(SizedAmount(v, s)),
                       Some(v.risk.maxSlippageBps), Some(ctx.height + deadlineWindow))
  }

  // ---- Allocation views ----

  datatype StrategyShare = StrategyShare(id: nat, bps: nat, amount: nat)
  datatype AllocationView = AllocationView(idleBps: nat, strategies: seq<StrategyShare>)

  function BpsOf(part: nat, total: nat): nat {
    if total == 0 then 0 else part * BPS / total
  }

  function Shares(v: VaultSnapshot, strategies: seq<StrategySnapshot>, added: map<nat, nat>): seq<StrategyShare> {
    if strategies == [] then []
    else
      var s := strategies[0];
      var amount := Lookup(v.allocations, s.id) + Lookup(added, s.id);
      [StrategyShare(s.id, BpsOf(amount, v.total), amount)] + Shares(v, strategies[1..], added)
  }

  function CurrentAllocation(v: VaultSnapshot, ctx: Context): Option<AllocationView> {
    if v.total == 0 then None
    else Some(AllocationView(BpsOf(v.idle, v.total), Shares(v, ForAsset(ctx.strategies, v.asset), map[])))
  }

  function ProposedAllocation(v: VaultSnapshot, ctx: Context, r: Recommendation): Option<AllocationView> {
    if !r.decision.REBALANCE? || r.amount.None? || r.strategy.None? then None
    else
      Some(AllocationView(BpsOf(Monus(v.idle, r.amount.value), v.total),
                          Shares(v, ForAsset(ctx.strategies, v.asset), map[r.strategy.value := r.amount.value])))
  }

  // ---- Intents ----

  /** None stands for the InsufficientDataError buildIntent throws. */
  function BuildIntent(r: Recommendation, v: VaultSnapshot): Option<Intent> {
    if !r.decision.REBALANCE? then None
    else if r.strategy.None? || r.amount.None? || r.maxSlippageBps.None? || r.deadline.None? then None
    else if r.amount.value == 0 then None
    else
      Some(Intent(v.vault, r.strategy.value, r.asset, r.amount.value, r.maxSlippageBps.value,
                  NearestDouble(v.risk.lastNonce + 1), r.deadline.value))
  }

  /** The intent's numbers are Clarity uints, so that a call can carry them. */
  predicate Encodable(i: Intent) {
    && i.vault <= UINT_MAX && i.strategy <= UINT_MAX && i.amount <= UINT_MAX
    && i.slippageBps <= UINT_MAX && i.nonce <= UINT_MAX && i.deadline <= UINT_MAX
  }

  // ---- The pipeline ----

  datatype Role = OwnerRole | ExecutorRole
  datatype Status = RECOMMENDED | VALIDATING | REJECTED | VALIDATED | TESTNET_BLOCKED

  datatype Execution = NotApplicable | NotSubmitted | NotExecutedTestnet

  datatype Record = Record(
    recommendation: Recommendation, current: Option<AllocationView>, proposed: Option<AllocationView>,
    intent: Option<Intent>, status: Status, execution: Execution,
    evaluatedAs: Option<Role>, errorCode: Option<nat>)

  /** One run of the pipeline against the chain state `w`, with the evaluation read
      at height `evalHeight`; `reached` says whether that read was made and came back.
      An intent no call can carry and a runtime error of the contract are unavailable
      evaluations as well. None: no such vault. The run decides a status and changes
      nothing on the chain. */
  method RunRecommendation(
    w: World, height: nat, evalHeight: nat, chainId: nat, vault: nat, asset: Asset,
    executor: Option<Principal>, configuredMainnet: bool, deadlineWindow: nat, reached: bool)
    returns (r: Option<Record>)
    ensures r.None? <==> vault !in w.funds.vault.vaults || vault !in w.guard.configs
    ensures r.Some? ==>
      var ctx := ContextOf(w, height, chainId);
      var v := SnapshotOf(w, ctx, vault, asset).value;
      var recommendation := Analyze(v, ctx, deadlineWindow);
      var record := r.value;
      && SnapshotOf(w, ctx, vault, asset) == Some(v)
      && record.recommendation == recommendation
      && record.current == CurrentAllocation(v, ctx)
      && record.proposed == ProposedAllocation(v, ctx, recommendation)
      && record.intent == BuildIntent(recommendation, v)
      && (record.intent.None? ==>
            record.status == RECOMMENDED && recommendation.decision != REBALANCE && record.evaluatedAs == None)
      && (record.intent.Some? ==>
            var asExecutor :=
              && w.guard.configs[vault].autonomous && executor.Some?
              && executor.value in w.agents.executors && w.agents.executors[executor.value].active;
            var sender := if asExecutor then executor.value else w.funds.vault.vaults[vault].owner;
            var verdict := Evaluate(w, Tx(sender, sender, evalHeight, chainId), record.intent.value);
            var asked := reached && Encodable(record.intent.value);
            && record.evaluatedAs == Some(if asExecutor then ExecutorRole else OwnerRole)
            && (record.status == RECOMMENDED <==> !asked || verdict.Abort?)
            && (record.status == REJECTED <==> asked && verdict.Err? && record.errorCode == Some(verdict.code))
            && (record.status == VALIDATED <==>
                  asked && verdict.Ok? && configuredMainnet && chainId == 1 && w.guard.armed)
            && (record.status == TESTNET_BLOCKED <==>
                  asked && verdict.Ok? && !(configuredMainnet && chainId == 1 && w.guard.armed))
            && (record.execution == NotExecutedTestnet <==> record.status == TESTNET_BLOCKED)
            && record.execution != NotApplicable)
  {
    var ctx := ContextOf(w, height, chainId);
    var snapshot := SnapshotOf(w, ctx, vault, asset);
    if snapshot.None? { return None; }
    var v := snapshot.value;
    var recommendation := Analyze(v, ctx, deadlineWindow);
    var base := Record(recommendation, CurrentAllocation(v, ctx), ProposedAllocation(v, ctx, recommendation),
                       None, RECOMMENDED, NotApplicable, None, None);
    if recommendation.decision != REBALANCE {
      return Some(base);
    }
    var intent := BuildIntent(recommendation, v);
    if intent.None? {
      return Some(base.(status := REJECTED, execution := NotSubmitted));
    }
    var record := base.(intent := intent, status := VALIDATING, execution := NotSubmitted);

    var sender, role := v.owner, OwnerRole;
    var candidate := if v.risk.autonomous then executor else None;
    if candidate.Some? && AgentRegistry.IsAuthorizedExecutor(w.agents, candidate.value) {
      sender := candidate.value;
      role := ExecutorRole;
    }
    var verdict := Evaluate(w, Tx(sender, sender, evalHeight, chainId), intent.value);
    record := record.(evaluatedAs := Some(role));
    if !reached || !Encodable(intent.value) || verdict.Abort? {
      record := record.(status := RECOMMENDED);
    } else if verdict.Err? {
      record := record.(status := REJECTED, errorCode := Some(verdict.code));
    } else if !configuredMainnet || !ctx.mainnet || !ctx.executionEnabled {
      record := record.(status := TESTNET_BLOCKED, execution := NotExecutedTestnet);
    } else {
      record := record.(status := VALIDATED);
    }
    return Some(record);
  }

  // ---- Sizing of a new external position ----

  function SizeDeployable(v: VaultSnapshot): nat {
    Min(Min(IdleAfterReserve(v), MaxExposureAmount(v)), v.risk.maxTx)
  }
}
