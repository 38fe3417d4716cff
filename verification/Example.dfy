/** Complete lives of a vault on armed mainnet, so that what is proved of all runs with
    executions is known to speak about something, and so that what can go wrong is
    seen to go wrong: a strategy is registered and activated, the gate armed, a vault
    created and funded, and then intents execute. */
module Example {
  import opened Agent
  import opened Clarity
  import opened Effects
  import opened Engine
  import opened Numbers
  import opened Protocol
  import Accounting
  import AgentTheorems
  import Gate
  import Ledger
  import RiskGuard
  import StrategyRegistry
  import Traces
  import Vault

  const ADMIN := Wallet(1)
  const OWNER := Wallet(2)
  const STRATEGY := Deployed(1)
  const COOLDOWN: nat := 10
  const POOL := PoolKey(1, STX)
  const PARAMS := RiskGuard.Params(5000, 1000000, 1, 500, 1000, COOLDOWN)
  const HOLDINGS := Ledger.State(map[OWNER := 1000000], map[])

  function Start(): World {
    Genesis(ADMIN, HOLDINGS)
  }

  function By(who: Principal, height: nat, call: Call): Step {
    Step(Tx(who, who, height, MAINNET_CHAIN_ID), call)
  }

  /** What the vault and the strategy hold after `invested` units were deployed. */
  function Holdings(invested: nat): Ledger.State
    requires invested <= 1000000
  {
    Ledger.State(map[OWNER := 0, VaultContract := 1000000 - invested, STRATEGY := invested], map[])
  }

  /** The owner invests another 100000 units, after which `invested` are deployed. */
  function Invest(height: nat, nonce: nat, invested: nat): Step
    requires invested <= 1000000
  {
    By(OWNER, height, ToEngine(Intent(1, 1, STX, 100000, 0, nonce, height),
                               Vault.StrategyCall(STRATEGY, Some(Holdings(invested)))))
  }

  function SetUp(): seq<Step> {
    [By(ADMIN, 1, ToRegistry(StrategyRegistry.RegisterStrategy("s", STRATEGY, STX, 5000))),
     By(ADMIN, 2, ToRegistry(StrategyRegistry.ActivateStrategy(1))),
     By(ADMIN, 3, ToGuard(RiskGuard.SetMainnetExecutionArmed(true))),
     By(OWNER, 4, ToVault(CreateVault(Vault.Creation("v", 0, Vault.ASSETS_STX_ONLY, false, PARAMS, false)))),
     By(OWNER, 5, ToPools(DepositStx(1, 1000000)))]
  }

  lemma StrategyAndGate()
    ensures var w := StateAt(Start(), SetUp(), 3);
            && w == Start().(registry := w.registry, guard := RiskGuard.INITIAL.(armed := true))
            && w.registry.strategies == map[1 := StrategyRegistry.Strategy("s", STRATEGY, STX, true, 5000, 1)]
  {
    var steps := SetUp();
    assert StateAt(Start(), steps, 1) == Next(Start(), steps[0]);
    assert StateAt(Start(), steps, 2) == Next(StateAt(Start(), steps, 1), steps[1]);
    assert StateAt(Start(), steps, 3) == Next(StateAt(Start(), steps, 2), steps[2]);
  }

  /** The vault is funded, `invested` of it is deployed, and `nonce` executed last, at `height`. */
  predicate Ready(w: World, invested: nat, nonce: nat, height: nat) {
    && invested <= 1000000
    && w.admin.admin == ADMIN && !w.admin.paused && w.guard.armed
    && w.registry.strategies == map[1 := StrategyRegistry.Strategy("s", STRATEGY, STX, true, 5000, 1)]
    && w.guard.configs == map[1 := RiskGuard.Config(PARAMS, false, nonce, height)]
    && w.funds.vault.vaults == map[1 := Vault.Info(OWNER, "v", 0, Vault.ASSETS_STX_ONLY, false, false, 4)]
    && w.funds.vault.IdleOf(POOL) == 1000000 - invested
    && w.funds.vault.TotalOf(POOL) == 1000000
    && w.funds.vault.AllocationOf(POOL, 1) == invested
  }

  lemma Created()
    ensures var w := StateAt(Start(), SetUp(), 4);
            && w == StateAt(Start(), SetUp(), 3).(guard := w.guard, funds := w.funds)
            && w.guard == RiskGuard.INITIAL.(armed := true, configs := map[1 := RiskGuard.Config(PARAMS, false, 0, 0)])
            && w.funds == Start().funds.(vault := w.funds.vault)
            && w.funds.vault.vaults == map[1 := Vault.Info(OWNER, "v", 0, Vault.ASSETS_STX_ONLY, false, false, 4)]
            && w.funds.vault.idle == map[] && w.funds.vault.total == map[] && w.funds.vault.allocations == map[]
            && w.funds.vault.holderRegistered == {} && w.funds.vault.holderCount == map[]
  {
    StrategyAndGate();
    var w := StateAt(Start(), SetUp(), 3);
    assert StateAt(Start(), SetUp(), 4) == Next(w, SetUp()[3]);
    hide StateAt;
    assert Executed(w, SetUp()[3]).Ok?;
  }

  lemma Funded()
    ensures Ready(StateAt(Start(), SetUp(), 5), 0, 0, 0)
  {
    StrategyAndGate();
    Created();
    var w := StateAt(Start(), SetUp(), 4);
    assert StateAt(Start(), SetUp(), 5) == Next(w, SetUp()[4]);
    hide StateAt;
    assert Executed(w, SetUp()[4]).Ok?;
  }

  lemma InvestExecutes(w: World, invested: nat, last: nat, lastHeight: nat, nonce: nat, height: nat)
    requires Ready(w, invested, last, lastHeight) && invested + 100000 <= 500000 && last < nonce
    requires lastHeight > 0 ==> lastHeight + COOLDOWN <= height <= UINT_MAX
    ensures Executed(w, Invest(height, nonce, invested + 100000)).Ok?
    ensures Ready(Next(w, Invest(height, nonce, invested + 100000)), invested + 100000, nonce, height)
  {
    hide Evaluate, Submitted, VaultExecuted, PoolsExecuted, RiskGuard.CheckIntent, RiskGuard.Executed, StrategyRegistry.Executed;
    var step := Invest(height, nonce, invested + 100000);
    InvestPasses(w, invested, last, lastHeight, nonce, height);
    Gate.SubmitRefinesEvaluate(w, step.tx, step.call.intent, step.call.strategyCall);
    var q, recorded := SubmittedShape(w, step.tx, step.call.intent, step.call.strategyCall);
  }

  lemma InvestPasses(w: World, invested: nat, last: nat, lastHeight: nat, nonce: nat, height: nat)
    requires Ready(w, invested, last, lastHeight) && invested + 100000 <= 500000 && last < nonce
    requires lastHeight > 0 ==> lastHeight + COOLDOWN <= height <= UINT_MAX
    ensures Evaluate(w, Tx(OWNER, OWNER, height, MAINNET_CHAIN_ID), Intent(1, 1, STX, 100000, 0, nonce, height)) == Ok(true)
  {
  }

  /** After the set-up, the next step of a run starts from a funded vault. */
  lemma AfterSetUp(rest: seq<Step>)
    requires rest != [] && PossibleRun(Start(), SetUp() + rest)
    ensures Ready(StateAt(Start(), SetUp() + rest, 5), 0, 0, 0)
    ensures StateAt(Start(), SetUp() + rest, 6) == Next(StateAt(Start(), SetUp() + rest, 5), rest[0])
  {
    hide StateAt, Next, PossibleRun, Ready;
    Funded();
    StateAtPrefix(Start(), SetUp(), rest, 5);
    RunStep(Start(), SetUp() + rest, 5);
  }

  // ---- Two executions ----

  function Twice(): seq<Step> {
    SetUp() + [Invest(6, 1, 100000), Invest(6 + COOLDOWN, 2, 200000)]
  }

  /** Both intents execute, every step is possible. */
  lemma IntentsExecute()
    ensures PossibleRun(Start(), Twice())
    ensures Traces.ExecutedAt(Start(), Twice(), 5, 1) && Traces.ExecutedAt(Start(), Twice(), 6, 1)
    ensures BooksOf(StateAt(Start(), Twice(), 7)).AllocationOf(POOL, 1) == 200000
  {
    hide Executed, StateAt;
    var rest := [Invest(6, 1, 100000), Invest(6 + COOLDOWN, 2, 200000)];
    AfterSetUp(rest);
    RunStep(Start(), Twice(), 6);
    InvestExecutes(StateAt(Start(), Twice(), 5), 0, 0, 0, 1, 6);
    InvestExecutes(StateAt(Start(), Twice(), 6), 100000, 1, 6, 2, 6 + COOLDOWN);
  }

  // ---- A ceiling lowered too late ----

  function Lowered(): seq<Step> {
    SetUp() + [By(ADMIN, 6, ToGuard(RiskGuard.SetProtocolLimits(1000, 1000, 1, 500))),
               Invest(7, 1, 100000), Invest(7 + COOLDOWN, 2, 200000)]
  }

  /** The admin lowers the exposure ceiling to 10%. The vault keeps its own 50%, and
      its second intent takes the strategy to 20% of the pool. */
  lemma LoweredCeilingDoesNotBind()
    ensures PossibleRun(Start(), Lowered())
    ensures var w := StateAt(Start(), Lowered(), 8);
            && Traces.ExecutedAt(Start(), Lowered(), 7, 1)
            && w.guard.maxExposureBps == 1000
            && !Traces.WithinCap(BooksOf(w), POOL, 1, w.guard.maxExposureBps)
            && 1 in w.guard.configs && !RiskGuard.ParamsValid(w.guard, w.guard.configs[1].params)
  {
    hide StateAt;
    var rest := [By(ADMIN, 6, ToGuard(RiskGuard.SetProtocolLimits(1000, 1000, 1, 500))),
                 Invest(7, 1, 100000), Invest(7 + COOLDOWN, 2, 200000)];
    AfterSetUp(rest);
    RunStep(Start(), Lowered(), 6);
    RunStep(Start(), Lowered(), 7);
    LimitsLowered(StateAt(Start(), Lowered(), 5));
    InvestExecutes(StateAt(Start(), Lowered(), 6), 0, 0, 0, 1, 7);
    InvestKeepsLimits(StateAt(Start(), Lowered(), 6), 7, 1, 100000);
    InvestExecutes(StateAt(Start(), Lowered(), 7), 100000, 1, 7, 2, 7 + COOLDOWN);
    InvestKeepsLimits(StateAt(Start(), Lowered(), 7), 7 + COOLDOWN, 2, 200000);
    hide Executed;
  }

  lemma LimitsLowered(w: World)
    requires Ready(w, 0, 0, 0)
    ensures var w' := Next(w, By(ADMIN, 6, ToGuard(RiskGuard.SetProtocolLimits(1000, 1000, 1, 500))));
            Ready(w', 0, 0, 0) && w'.guard.maxExposureBps == 1000
  {
  }

  lemma InvestKeepsLimits(w: World, height: nat, nonce: nat, invested: nat)
    requires invested <= 1000000 && Executed(w, Invest(height, nonce, invested)).Ok?
    ensures Next(w, Invest(height, nonce, invested)).guard.maxExposureBps == w.guard.maxExposureBps
  {
    hide Submitted;
    var step := Invest(height, nonce, invested);
    var q, recorded := SubmittedShape(w, step.tx, step.call.intent, step.call.strategyCall);
  }

  // ---- The agent after a large nonce ----

  function Once(nonce: nat): seq<Step> {
    SetUp() + [Invest(6, nonce, 100000)]
  }

  lemma OnceExecutes(nonce: nat)
    requires nonce > 0
    ensures PossibleRun(Start(), Once(nonce)) && Traces.ExecutedAt(Start(), Once(nonce), 5, 1)
    ensures Ready(StateAt(Start(), Once(nonce), 6), 100000, nonce, 6)
  {
    hide Executed, StateAt;
    AfterSetUp([Invest(6, nonce, 100000)]);
    InvestExecutes(StateAt(Start(), Once(nonce), 5), 0, 0, 0, nonce, 6);
  }

  /** The agent, run on such a vault, proposes a REBALANCE. */
  lemma AgentProposes(w: World, nonce: nat, height: nat, window: nat) returns (v: VaultSnapshot, r: Recommendation, i: Intent)
    requires Ready(w, 100000, nonce, 6)
    ensures v.vault == 1 && v.asset == STX && !v.risk.autonomous && v.owner == OWNER
    ensures AgentTheorems.Proposes(w, height, MAINNET_CHAIN_ID, window, v, r, i)
  {
    var ctx := ContextOf(w, height, MAINNET_CHAIN_ID);
    var s := StrategySnapshot(1, STX, 5000);
    assert ctx.strategies == [s] by { OnlyStrategy(w.registry); }
    assert ForAsset([s], STX) == [s] by { assert [s][1..] == []; }
    v := SnapshotFacts(w, ctx, nonce);
    r := Analyze(v, ctx, window);
    AgentTheorems.RebalanceIffSomethingFits(v, ctx, window);
    AgentTheorems.RebalanceBuilds(v, ctx, window);
    hide Analyze, BuildIntent, SnapshotOf, ForAsset, ActiveFrom;
    i := BuildIntent(r, v).value;
  }

  lemma OnlyStrategy(r: StrategyRegistry.State)
    requires r.strategies == map[1 := StrategyRegistry.Strategy("s", STRATEGY, STX, true, 5000, 1)]
    ensures ActiveFrom(r, 1) == [StrategySnapshot(1, STX, 5000)]
  {
    SmallIsExact(5000);
    assert ActiveFrom(r, 2) == [];
  }

  lemma SnapshotFacts(w: World, ctx: Context, nonce: nat) returns (v: VaultSnapshot)
    requires Ready(w, 100000, nonce, 6) && ForAsset(ctx.strategies, STX) == [StrategySnapshot(1, STX, 5000)]
    ensures SnapshotOf(w, ctx, 1, STX) == Some(v)
    ensures v.vault == 1 && v.owner == OWNER && v.supportsAsset && !v.paused && v.asset == STX
    ensures v.idle == 900000 && v.total == 1000000 && Lookup(v.allocations, 1) == 100000
    ensures v.risk.maxExposureBps == 5000 && v.risk.maxTx == 1000000 && v.risk.minIdleBps == 1000 && !v.risk.autonomous
  {
    SmallIsExact(5000);
    SmallIsExact(1000);
    hide NearestDouble;
    v := SnapshotOf(w, ctx, 1, STX).value;
    assert StrategySnapshot(1, STX, 5000) in ForAsset(ctx.strategies, STX);
  }

  /** What the contract makes of that proposal, for any first nonce. */
  lemma NextProposal(nonce: nat, height: nat, window: nat) returns (v: VaultSnapshot, r: Recommendation, i: Intent)
    requires nonce > 0
    ensures var w := StateAt(Start(), Once(nonce), 6);
            && AgentTheorems.Proposes(w, height, MAINNET_CHAIN_ID, window, v, r, i)
            && w.guard.configs.Keys == {1} && w.guard.configs[1].lastNonce == nonce && v.vault == 1
            && AgentTheorems.PassesUpToTime(w, v, i, Tx(OWNER, OWNER, height, MAINNET_CHAIN_ID))
  {
    hide Executed, StateAt, PossibleRun, AgentTheorems.Proposes, AgentTheorems.PassesUpToTime;
    OnceExecutes(nonce);
    var w := StateAt(Start(), Once(nonce), 6);
    v, r, i := AgentProposes(w, nonce, height, window);
    Accounting.ReachableBalanced(ADMIN, HOLDINGS, Once(nonce), 6);
    Gate.ReachableConfigured(ADMIN, HOLDINGS, Once(nonce), 6);
    AgentTheorems.ProposalsPass(w, height, MAINNET_CHAIN_ID, window, v, r, i, None, Tx(OWNER, OWNER, height, MAINNET_CHAIN_ID));
  }

  /** A vault whose owner executed nonce 2^53: the agent's next proposal repeats it and
      is refused with u308. */
  lemma StalledAt2To53(height: nat, window: nat) returns (v: VaultSnapshot, r: Recommendation, i: Intent)
    ensures var w := StateAt(Start(), Once(TWO53), 6);
            && PossibleRun(Start(), Once(TWO53)) && Traces.ExecutedAt(Start(), Once(TWO53), 5, 1)
            && AgentTheorems.Proposes(w, height, MAINNET_CHAIN_ID, window, v, r, i)
            && i.nonce == TWO53
            && Evaluate(w, Tx(OWNER, OWNER, height, MAINNET_CHAIN_ID), i) == Err(308)
  {
    hide Executed, StateAt, PossibleRun, AgentTheorems.Proposes, Evaluate, Successor, Advances;
    OnceExecutes(TWO53);
    v, r, i := NextProposal(TWO53, height, window);
    AgentTheorems.NonceCanStall();
  }

  /** A vault whose owner executed nonce UINT_MAX: the agent's next proposal has the
      nonce 2^128, which no call can carry; and nobody's intent ever passes again. */
  lemma FinishedAtUintMax(height: nat, window: nat, steps: seq<Step>, tx: Tx, intent: Intent)
    returns (v: VaultSnapshot, r: Recommendation, i: Intent)
    requires PossibleRun(Start(), Once(UINT_MAX) + steps) && intent.vault == 1 && Encodable(intent)
    ensures var w := StateAt(Start(), Once(UINT_MAX), 6);
            && Traces.ExecutedAt(Start(), Once(UINT_MAX), 5, 1)
            && AgentTheorems.Proposes(w, height, MAINNET_CHAIN_ID, window, v, r, i)
            && i.nonce == UINT_MAX + 1
    ensures !Evaluate(StateAt(Start(), Once(UINT_MAX) + steps, 6 + |steps|), tx, intent).Ok?
  {
    hide Executed, StateAt, PossibleRun, AgentTheorems.Proposes, Evaluate, Successor, Advances, Submitted;
    OnceExecutes(UINT_MAX);
    v, r, i := NextProposal(UINT_MAX, height, window);
    LargestUint();
    StateAtPrefix(Start(), Once(UINT_MAX), steps, 6);
    Traces.NonceExhausted(Start(), Once(UINT_MAX) + steps, 6, 6 + |steps|, tx, intent, Vault.StrategyCall(STRATEGY, None));
  }
}
