/** The evaluate/submit pair: submitting does nothing that the read-only
    evaluation did not allow, and the three layers below it never contradict it. */
module Gate {
  import opened Accounting
  import opened Clarity
  import opened Directory
  import opened Effects
  import opened Engine
  import opened Protocol
  import AgentRegistry
  import Ledger
  import Pricing
  import ProtocolAdmin
  import ReceiptToken
  import RiskGuard
  import StrategyRegistry
  import Vault

  /** Every vault has a risk configuration and the other way round; the limits and
      the registry are within their ranges. */
  ghost predicate Configured(w: World) {
    && w.guard.configs.Keys == w.funds.vault.vaults.Keys
    && RiskGuard.Valid(w.guard)
    && StrategyRegistry.Valid(w.registry)
  }

  lemma StepKeepsConfigured(w: World, step: Step)
    requires FromOutside(step.tx) && Configured(w)
    ensures Configured(Next(w, step))
  {
    hide VaultExecuted, PoolsExecuted, Submitted;
    hide ProtocolAdmin.Executed, AgentRegistry.Executed, StrategyRegistry.Executed, RiskGuard.Executed, ReceiptToken.Executed;
    if Executed(w, step).Ok? {
      match step.call
      case ToRegistry(call) => StrategyRegistry.ExecutedKeepsValid(w.registry, step.tx, w.admin.admin, call);
      case ToGuard(call) => GuardKeepsConfigured(w.guard, step.tx, w.admin.admin, w.admin.paused, call);
      case ToVault(call) => VaultCallKeepsConfigured(w, step.tx, call);
      case ToPools(call) => PoolsKeepVaults(w, step.tx, call);
      case ToEngine(i, strategyCall) => SubmitKeepsConfigured(w, step.tx, i, strategyCall);
      case _ =>
    }
  }

  lemma GuardKeepsConfigured(g: RiskGuard.State, tx: Tx, admin: Principal, paused: bool, call: RiskGuard.Call)
    requires FromOutside(tx) && RiskGuard.Valid(g) && RiskGuard.Executed(g, tx, admin, paused, call).Ok?
    ensures var g' := RiskGuard.Executed(g, tx, admin, paused, call).value.0;
            RiskGuard.Valid(g') && g'.configs == g.configs
  {
  }

  lemma VaultCallKeepsConfigured(w: World, tx: Tx, call: VaultCall)
    requires Configured(w) && VaultExecuted(w, tx, call).Ok?
    ensures Configured(VaultExecuted(w, tx, call).value.0)
  {
    var s, g := w.funds.vault, w.guard;
    hide RiskGuard.ConfigInitialised, RiskGuard.ConfigReplaced, RiskGuard.AutonomySet;
    match call
    case CreateVault(c) => ConfigKept(g, s.nextVaultId, c.params, c.autonomous);
    case SetRiskConfig(id, params, autonomous) => ConfigKept(g, id, params, autonomous);
    case SetAutonomousMode(id, enabled) => AutonomyKept(g, id, enabled);
    case _ =>
  }

  lemma ConfigKept(g: RiskGuard.State, id: nat, p: RiskGuard.Params, autonomous: bool)
    requires RiskGuard.Valid(g)
    ensures var r := RiskGuard.ConfigInitialised(g, VaultContract, id, p, autonomous);
            r.Ok? ==> RiskGuard.Valid(r.value.0) && r.value.0.configs.Keys == g.configs.Keys + {id}
    ensures var r := RiskGuard.ConfigReplaced(g, VaultContract, id, p, autonomous);
            r.Ok? ==> RiskGuard.Valid(r.value.0) && r.value.0.configs.Keys == g.configs.Keys
  {
  }

  lemma AutonomyKept(g: RiskGuard.State, id: nat, enabled: bool)
    requires RiskGuard.Valid(g)
    ensures var r := RiskGuard.AutonomySet(g, VaultContract, id, enabled);
            r.Ok? ==> RiskGuard.Valid(r.value.0) && r.value.0.configs.Keys == g.configs.Keys
  {
  }

  lemma SubmitKeepsConfigured(w: World, tx: Tx, i: Intent, strategyCall: Vault.StrategyCall)
    requires Configured(w) && Submitted(w, tx, i, strategyCall).Ok?
    ensures Configured(Submitted(w, tx, i, strategyCall).value.0)
  {
    hide Submitted;
    var q, recorded := SubmittedShape(w, tx, i, strategyCall);
  }

  lemma {:induction false} ReachableConfigured(deployer: Principal, holdings: Ledger.State, steps: seq<Step>, n: nat)
    requires PossibleRun(Genesis(deployer, holdings), steps) && n <= |steps|
    ensures Configured(StateAt(Genesis(deployer, holdings), steps, n))
  {
    hide Executed, EffectOf, StateAt, Next, PossibleRun, Possible;
    var w0 := Genesis(deployer, holdings);
    if n == 0 {
      RunStart(w0, steps);
    } else {
      ReachableConfigured(deployer, holdings, steps, n - 1);
      RunStep(w0, steps, n - 1);
      StepKeepsConfigured(StateAt(w0, steps, n - 1), steps[n - 1]);
    }
  }

  // ---- Configurations and ceilings ----

  /** The vault whose configuration a step sets, if any. */
  function ConfiguresVault(w: World, step: Step): Option<nat> {
    if !Executed(w, step).Ok? || !step.call.ToVault? then None
    else
      match step.call.vault
      case CreateVault(_) => Some(w.funds.vault.nextVaultId)
      case SetRiskConfig(id, _, _) => Some(id)
      case _ => None
  }

  /** The guard a vault's configuration was last checked against. */
  ghost function GuardWhenSet(w0: World, steps: seq<Step>, n: nat, id: nat): RiskGuard.State
    requires n <= |steps|
  {
    if n == 0 then w0.guard
    else if ConfiguresVault(StateAt(w0, steps, n - 1), steps[n - 1]) == Some(id) then StateAt(w0, steps, n - 1).guard
    else GuardWhenSet(w0, steps, n - 1, id)
  }

  /** A configuration is only ever written through params-valid. */
  lemma ConfigStep(w: World, step: Step, id: nat)
    requires FromOutside(step.tx) && id in Next(w, step).guard.configs
    ensures var p := Next(w, step).guard.configs[id].params;
            if ConfiguresVault(w, step) == Some(id) then RiskGuard.ParamsValid(w.guard, p)
            else id in w.guard.configs && w.guard.configs[id].params == p
  {
    hide VaultExecuted, PoolsExecuted, Submitted, RiskGuard.ParamsValid;
    hide ProtocolAdmin.Executed, AgentRegistry.Executed, StrategyRegistry.Executed, RiskGuard.Executed, ReceiptToken.Executed;
    if Executed(w, step).Ok? {
      match step.call
      case ToGuard(call) => GuardCallLeavesConfigs(w, step.tx, call);
      case ToVault(call) => VaultConfigStep(w, step.tx, call, id);
      case ToEngine(i, strategyCall) => var q, recorded := SubmittedShape(w, step.tx, i, strategyCall);
      case _ =>
    }
  }

  lemma GuardCallLeavesConfigs(w: World, tx: Tx, call: RiskGuard.Call)
    requires FromOutside(tx) && RiskGuard.Executed(w.guard, tx, w.admin.admin, w.admin.paused, call).Ok?
    ensures RiskGuard.Executed(w.guard, tx, w.admin.admin, w.admin.paused, call).value.0.configs == w.guard.configs
  {
  }

  lemma VaultConfigStep(w: World, tx: Tx, call: VaultCall, id: nat)
    requires VaultExecuted(w, tx, call).Ok? && id in VaultExecuted(w, tx, call).value.0.guard.configs
    ensures var p := VaultExecuted(w, tx, call).value.0.guard.configs[id].params;
            if (call.CreateVault? && id == w.funds.vault.nextVaultId) || (call.SetRiskConfig? && id == call.id)
            then RiskGuard.ParamsValid(w.guard, p)
            else id in w.guard.configs && w.guard.configs[id].params == p
  {
    hide RiskGuard.ParamsValid;
  }

  /** In every reachable state each configuration satisfied params-valid under the
      ceilings in force when it was last set. Ceilings set later do not bind it: it
      still satisfies params-valid exactly if it is within the four ceilings of now. */
  lemma {:induction false} ReachableConfigs(deployer: Principal, holdings: Ledger.State, steps: seq<Step>, n: nat, id: nat)
    requires PossibleRun(Genesis(deployer, holdings), steps) && n <= |steps|
    requires id in StateAt(Genesis(deployer, holdings), steps, n).guard.configs
    ensures var w0 := Genesis(deployer, holdings);
            var g := StateAt(w0, steps, n).guard;
            var p := g.configs[id].params;
            && RiskGuard.ParamsValid(GuardWhenSet(w0, steps, n, id), p)
            && (RiskGuard.ParamsValid(g, p) <==>
                  && p.maxExposureBps <= g.maxExposureBps && p.maxSlippageBps <= g.maxSlippageBps
                  && g.minLiquidityBps <= p.minIdleBps && g.minCooldown <= p.cooldown)
  {
    hide Executed, StateAt, Next, PossibleRun, Possible, ConfiguresVault;
    var w0 := Genesis(deployer, holdings);
    if n == 0 {
      RunStart(w0, steps);
      assert false;
    } else {
      RunStep(w0, steps, n - 1);
      ConfigStep(StateAt(w0, steps, n - 1), steps[n - 1], id);
      if ConfiguresVault(StateAt(w0, steps, n - 1), steps[n - 1]) != Some(id) {
        ReachableConfigs(deployer, holdings, steps, n - 1, id);
      }
    }
  }

  // ---- Submit refines evaluate ----

  /** The strategy's entry names this contract. */
  predicate IsRegisteredContract(w: World, strategy: nat, strategyContract: Principal) {
    strategy in w.registry.strategies && w.registry.strategies[strategy].strategyContract == strategyContract
  }

  /** In ANY state: an error of evaluate comes back unchanged; a passing intent is
      refused with exactly u208 unless the chain is mainnet and the gate armed; then it
      executes, or fails because the strategy is not the registered one (u108) or its
      deposit fails (u106). Whatever is not `(ok true)` changes nothing. */
  lemma SubmitRefinesEvaluate(w: World, tx: Tx, i: Intent, call: Vault.StrategyCall)
    ensures var verdict := Evaluate(w, tx, i);
            var r := Executed(w, Step(tx, ToEngine(i, call)));
            && (!verdict.Ok? ==> r == verdict.PropagateFailure())
            && (verdict.Ok? ==>
                  if tx.chainId != 1 || !w.guard.armed then r == Err(208)
                  else if !IsRegisteredContract(w, i.strategy, call.strategyContract) then r == Err(108)
                  else if call.outcome.None? then r == Err(106)
                  else r.Ok?)
            && (!r.Ok? ==> Next(w, Step(tx, ToEngine(i, call))) == w)
  {
    hide RiskGuard.CheckIntent;
    if Evaluate(w, tx, i).Ok? {
      CheckedAmount(w.guard, w.admin.paused, tx.height, RequestOf(i, Evaluate(w, tx, i).value), ReadingOf(w, i));
    }
  }

  /** The gate, from the state alone: whatever executes does so on mainnet, armed. */
  lemma ExecutesOnlyArmedOnMainnet(w: World, tx: Tx, i: Intent, call: Vault.StrategyCall)
    requires Executed(w, Step(tx, ToEngine(i, call))).Ok?
    ensures tx.chainId == 1 && w.guard.armed
  {
    SubmitRefinesEvaluate(w, tx, i, call);
    hide Executed, Evaluate;
  }

  /** The codes of the engine's own layer and of the limits proper. The codes the
      vault (u101, u105, u107, u110, u112, u124) and the guard (u302, u304, u317,
      u319, u320) keep for callers that bypass the engine are not among them. */
  predicate EngineCode(code: nat) {
    || 200 <= code <= 208
    || code == 303 || 306 <= code <= 316
    || code == 106 || code == 108
  }

  /** In reachable states, whatever is submitted and by whom, the engine answers
      with one of its own codes: the deeper layers' duplicate checks never fire. */
  lemma DeepLayersNeverSurface(w: World, tx: Tx, i: Intent, call: Vault.StrategyCall)
    requires Configured(w) && Balanced(BooksOf(w))
    requires Submitted(w, tx, i, call).Err?
    ensures EngineCode(Submitted(w, tx, i, call).code)
  {
    SubmitRefinesEvaluate(w, tx, i, call);
    assert PoolBalanced(BooksOf(w), i.Pool());
    if Evaluate(w, tx, i).Err? {
      EvaluateCodes(w, tx, i);
    }
  }

  lemma EvaluateCodes(w: World, tx: Tx, i: Intent)
    requires Configured(w) && ReadingOf(w, i).idle <= ReadingOf(w, i).total
    requires Evaluate(w, tx, i).Err?
    ensures EngineCode(Evaluate(w, tx, i).code)
  {
    hide RiskGuard.CheckIntent;
    if i.vault in w.funds.vault.vaults && IsValidAsset(i.asset) {
      var callerIsOwner := tx.sender == w.funds.vault.vaults[i.vault].owner;
      CheckCodes(w.guard, w.admin.paused, tx.height, RequestOf(i, callerIsOwner), ReadingOf(w, i));
    }
  }

  lemma CheckCodes(g: RiskGuard.State, paused: bool, height: nat, q: RiskGuard.Request, m: RiskGuard.Reading)
    requires q.vault in g.configs && IsValidAsset(q.asset) && m.idle <= m.total
    ensures RiskGuard.CheckIntent(g, paused, height, q, m).Err? ==>
              EngineCode(RiskGuard.CheckIntent(g, paused, height, q, m).code)
  {
  }

  // ---- What the checks mean ----

  /** The limits of one intent without any rounding: a share is at most `cap` basis
      points after flooring exactly when it is below `cap + 1`. */
  predicate WithinLimits(cfg: RiskGuard.Config, q: RiskGuard.Request, m: RiskGuard.Reading) {
    && 0 < q.amount <= (if q.asset == STX then cfg.params.maxStxTx else cfg.params.maxSbtcTx) && q.amount <= m.idle && m.total > 0
    && q.slippageBps <= cfg.params.maxSlippageBps
    && (m.allocation + q.amount) * BPS < (cfg.params.maxExposureBps + 1) * m.total
    && (m.allocation + q.amount) * BPS < (m.protocolCapBps + 1) * m.total
    && (m.idle - q.amount) * BPS >= cfg.params.minIdleBps * m.total
  }

  /** The numbers check-intent computes with fit a Clarity uint. */
  predicate Computable(cfg: RiskGuard.Config, q: RiskGuard.Request, m: RiskGuard.Reading) {
    && (cfg.lastHeight > 0 ==> cfg.lastHeight + cfg.params.cooldown <= UINT_MAX)
    && (m.allocation + q.amount) * BPS <= UINT_MAX
    && (m.idle - q.amount) * BPS <= UINT_MAX
  }

  /** check-intent answers `(ok true)` exactly for an authorised, timely, fresh
      intent within its limits (as far as the arithmetic can carry it). */
  lemma CheckPassesIff(g: RiskGuard.State, paused: bool, height: nat, q: RiskGuard.Request, m: RiskGuard.Reading)
    ensures RiskGuard.CheckIntent(g, paused, height, q, m).Ok? <==>
      && q.vault in g.configs && IsValidAsset(q.asset) && !paused
      && var cfg := g.configs[q.vault];
         && (q.callerIsOwner || cfg.autonomous)
         && height <= q.deadline && cfg.lastNonce < q.nonce
         && (cfg.lastHeight > 0 ==> cfg.lastHeight + cfg.params.cooldown <= height)
         && WithinLimits(cfg, q, m) && Computable(cfg, q, m)
  {
    if q.vault in g.configs && q.amount <= m.idle && m.total > 0 {
      var cfg := g.configs[q.vault];
      FlooredAtMost((m.allocation + q.amount) * BPS, m.total, cfg.params.maxExposureBps);
      FlooredAtMost((m.allocation + q.amount) * BPS, m.total, m.protocolCapBps);
      FlooredAtLeast((m.idle - q.amount) * BPS, m.total, cfg.params.minIdleBps);
    }
  }

  lemma FlooredAtMost(x: nat, d: nat, q: nat)
    requires d > 0
    ensures x / d <= q <==> x < (q + 1) * d
  {
    if x < (q + 1) * d {
      Pricing.FloorIsBelow(x, d, q + 1);
    } else {
      Pricing.FloorIsLargest(x, d, q + 1);
    }
  }

  lemma FlooredAtLeast(x: nat, d: nat, q: nat)
    requires d > 0
    ensures x / d >= q <==> x >= q * d
  {
    if x >= q * d {
      Pricing.FloorIsLargest(x, d, q);
    } else {
      Pricing.FloorIsBelow(x, d, q);
    }
  }
}
