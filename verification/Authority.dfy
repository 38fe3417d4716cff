/** Who may do what: every protected setting against every function of every
    contract, and what a pause stops and does not stop. */
module Authority {
  import opened Clarity
  import opened Directory
  import opened Effects
  import opened Engine
  import opened Protocol
  import AgentRegistry
  import Ledger
  import Pricing
  import ProtocolAdmin
  import ReceiptToken
  import RiskGuard
  import StrategyRegistry
  import Traces
  import Vault

  // ---- The admin ----

  /** Everything that is the admin's alone to change. */
  datatype Settings = Settings(
    agents: AgentRegistry.State, registry: StrategyRegistry.State, paused: bool,
    maxSlippageBps: nat, maxExposureBps: nat, minCooldown: nat, minLiquidityBps: nat,
    approvedSbtc: Option<Principal>, armed: bool)

  function SettingsWith(w: World, g: RiskGuard.State): Settings {
    Settings(w.agents, w.registry, w.admin.paused,
             g.maxSlippageBps, g.maxExposureBps, g.minCooldown, g.minLiquidityBps, g.approvedSbtc, g.armed)
  }

  function SettingsOf(w: World): Settings {
    SettingsWith(w, w.guard)
  }

  /** No transaction of anybody but the admin changes a protocol-wide setting, and
      arming further needs mainnet. */
  lemma OnlyAdminGoverns(w: World, step: Step)
    requires FromOutside(step.tx)
    ensures SettingsOf(Next(w, step)) != SettingsOf(w) ==> step.tx.sender == w.admin.admin
    ensures Next(w, step).guard.armed != w.guard.armed ==> step.tx.chainId == 1
  {
    hide VaultExecuted, PoolsExecuted, Submitted, ReceiptToken.Executed;
    hide ProtocolAdmin.Executed, AgentRegistry.Executed, StrategyRegistry.Executed, RiskGuard.Executed;
    if Executed(w, step).Ok? {
      match step.call
      case ToAdmin(call) => AdminCallBy(w.admin, step.tx, call);
      case ToAgents(call) => AgentsCallBy(w.agents, step.tx, w.admin.admin, call);
      case ToRegistry(call) => RegistryCallBy(w.registry, step.tx, w.admin.admin, call);
      case ToGuard(call) => GuardCallBy(w, step.tx, call);
      case ToVault(call) => VaultCallSettings(w, step.tx, call);
      case ToEngine(i, strategyCall) => var q, recorded := SubmittedShape(w, step.tx, i, strategyCall);
      case _ =>
    }
  }

  lemma AdminCallBy(s: ProtocolAdmin.State, tx: Tx, call: ProtocolAdmin.Call)
    requires ProtocolAdmin.Executed(s, tx, call).Ok?
    ensures ProtocolAdmin.Executed(s, tx, call).value.0.paused != s.paused ==> tx.sender == s.admin
  {
  }

  lemma AgentsCallBy(s: AgentRegistry.State, tx: Tx, admin: Principal, call: AgentRegistry.Call)
    requires AgentRegistry.Executed(s, tx, admin, call).Ok?
    ensures tx.sender == admin
  {
  }

  lemma RegistryCallBy(s: StrategyRegistry.State, tx: Tx, admin: Principal, call: StrategyRegistry.Call)
    requires StrategyRegistry.Executed(s, tx, admin, call).Ok?
    ensures tx.sender == admin
  {
  }

  lemma GuardCallBy(w: World, tx: Tx, call: RiskGuard.Call)
    requires FromOutside(tx) && RiskGuard.Executed(w.guard, tx, w.admin.admin, w.admin.paused, call).Ok?
    ensures var g' := RiskGuard.Executed(w.guard, tx, w.admin.admin, w.admin.paused, call).value.0;
            && tx.sender == w.admin.admin
            && (g'.armed != w.guard.armed ==> IsMainnetChain(tx))
  {
  }

  lemma VaultCallSettings(w: World, tx: Tx, call: VaultCall)
    requires VaultExecuted(w, tx, call).Ok?
    ensures var w' := VaultExecuted(w, tx, call).value.0;
            SettingsOf(w') == SettingsOf(w) && w'.admin == w.admin
  {
  }

  /** Two-step succession: the admin changes only to a nominee who accepts, and
      only the admin nominates. */
  lemma AdminStep(w: World, step: Step)
    requires FromOutside(step.tx)
    ensures var before, after := w.admin, Next(w, step).admin;
            && (after.admin != before.admin ==>
                  before.pendingAdmin == Some(step.tx.sender) && after.admin == step.tx.sender && after.pendingAdmin == None)
            && (after.pendingAdmin != before.pendingAdmin && after.pendingAdmin.Some? ==>
                  Nominates(w, step) == after.pendingAdmin)
  {
    hide VaultExecuted, PoolsExecuted, Submitted, ReceiptToken.Executed;
    hide AgentRegistry.Executed, StrategyRegistry.Executed, RiskGuard.Executed;
    if Executed(w, step).Ok? {
      match step.call
      case ToVault(call) => VaultCallSettings(w, step.tx, call);
      case ToEngine(i, strategyCall) => var q, recorded := SubmittedShape(w, step.tx, i, strategyCall);
      case _ =>
    }
  }

  /** Whom the admin of the moment nominates with this step. */
  function Nominates(w: World, step: Step): Option<Principal> {
    if step.call.ToAdmin? && step.call.admin.ProposeAdmin? && step.tx.sender == w.admin.admin
    then Some(step.call.admin.newAdmin) else None
  }

  ghost predicate EverNominated(w0: World, steps: seq<Step>, n: nat, who: Principal)
    requires n <= |steps|
  {
    n > 0 && (EverNominated(w0, steps, n - 1, who) || Nominates(StateAt(w0, steps, n - 1), steps[n - 1]) == Some(who))
  }

  /** Over any run the admin is the deployer or was nominated by whoever was admin
      then; and so is whoever may accept next. */
  lemma {:induction false} AdminSuccession(deployer: Principal, holdings: Ledger.State, steps: seq<Step>, n: nat)
    requires PossibleRun(Genesis(deployer, holdings), steps) && n <= |steps|
    ensures var w0 := Genesis(deployer, holdings);
            var s := StateAt(w0, steps, n).admin;
            && (s.admin == deployer || EverNominated(w0, steps, n, s.admin))
            && (s.pendingAdmin.Some? ==> EverNominated(w0, steps, n, s.pendingAdmin.value))
  {
    hide Executed, StateAt, Next, PossibleRun, Possible, Nominates;
    var w0 := Genesis(deployer, holdings);
    if n == 0 {
      RunStart(w0, steps);
    } else {
      AdminSuccession(deployer, holdings, steps, n - 1);
      RunStep(w0, steps, n - 1);
      AdminStep(StateAt(w0, steps, n - 1), steps[n - 1]);
    }
  }

  // ---- The owner ----

  /** What an owner configures about a vault. */
  ghost predicate SameConfiguration(w: World, w': World, id: nat) {
    && id in w.funds.vault.vaults && id in w'.funds.vault.vaults
    && id in w.guard.configs && id in w'.guard.configs
    && w'.funds.vault.vaults[id] == w.funds.vault.vaults[id]
    && w'.guard.configs[id].params == w.guard.configs[id].params
    && w'.guard.configs[id].autonomous == w.guard.configs[id].autonomous
  }

  /** Only its owner changes what is configured about a vault; the owner itself, its
      purpose, its assets and its creation height never change. */
  lemma OnlyOwnerConfigures(w: World, step: Step, id: nat)
    requires FromOutside(step.tx) && DirectoryExact(w.funds.vault)
    requires id in w.funds.vault.vaults && id in w.guard.configs
    ensures !SameConfiguration(w, Next(w, step), id) ==> step.tx.sender == w.funds.vault.vaults[id].owner
    ensures id in Next(w, step).funds.vault.vaults
    ensures var before, after := w.funds.vault.vaults[id], Next(w, step).funds.vault.vaults[id];
            after == before.(name := after.name, openDeposits := after.openDeposits, paused := after.paused)
  {
    hide VaultExecuted, PoolsExecuted, Submitted, ReceiptToken.Executed, DirectoryExact;
    hide ProtocolAdmin.Executed, AgentRegistry.Executed, StrategyRegistry.Executed, RiskGuard.Executed;
    if Executed(w, step).Ok? {
      match step.call
      case ToGuard(call) => GuardCallKeepsConfigs(w, step.tx, call);
      case ToVault(call) => VaultCallBy(w, step.tx, call, id);
      case ToPools(call) => PoolsKeepVaults(w, step.tx, call);
      case ToEngine(i, strategyCall) => var q, recorded := SubmittedShape(w, step.tx, i, strategyCall);
      case _ =>
    }
  }

  lemma GuardCallKeepsConfigs(w: World, tx: Tx, call: RiskGuard.Call)
    requires FromOutside(tx) && RiskGuard.Executed(w.guard, tx, w.admin.admin, w.admin.paused, call).Ok?
    ensures RiskGuard.Executed(w.guard, tx, w.admin.admin, w.admin.paused, call).value.0.configs == w.guard.configs
  {
  }

  lemma VaultCallBy(w: World, tx: Tx, call: VaultCall, id: nat)
    requires VaultExecuted(w, tx, call).Ok? && DirectoryExact(w.funds.vault)
    requires id in w.funds.vault.vaults && id in w.guard.configs
    ensures var w' := VaultExecuted(w, tx, call).value.0;
            && (!SameConfiguration(w, w', id) ==> tx.sender == w.funds.vault.vaults[id].owner)
            && id in w'.funds.vault.vaults
            && var before, after := w.funds.vault.vaults[id], w'.funds.vault.vaults[id];
               after == before.(name := after.name, openDeposits := after.openDeposits, paused := after.paused)
  {
    assert w.funds.vault.nextVaultId != id;
    hide DirectoryExact;
  }

  // ---- Execution ----

  /** An intent executes only for the owner or, in an autonomous vault, for an active
      entry of the executor registry; only on mainnet while the gate is armed; only
      with nothing paused; only for an asset of the vault's mode (1 STX, 2 sBTC, 3 both);
      and only into the registered contract of an active strategy for that asset. */
  lemma ExecutionAuthority(w: World, step: Step, vault: nat)
    requires Traces.Executes(w, step, vault)
    ensures vault in w.funds.vault.vaults && vault in w.guard.configs
    ensures step.tx.chainId == 1 && w.guard.armed
    ensures var i, info := step.call.intent, w.funds.vault.vaults[vault];
            && (step.tx.sender == info.owner
                || (w.guard.configs[vault].autonomous
                    && step.tx.sender in w.agents.executors && w.agents.executors[step.tx.sender].active))
            && !w.admin.paused && !info.paused
            && ((i.asset == STX && (info.assets == 1 || info.assets == 3))
                || (i.asset == SBTC && (info.assets == 2 || info.assets == 3)))
            && i.strategy > 0 && i.strategy in w.registry.strategies
            && var entry := w.registry.strategies[i.strategy];
               entry.active && entry.asset == i.asset && entry.strategyContract == step.call.strategyCall.strategyContract
  {
    hide Submitted, RiskGuard.CheckIntent;
    hide VaultExecuted, PoolsExecuted, ReceiptToken.Executed;
    hide ProtocolAdmin.Executed, AgentRegistry.Executed, StrategyRegistry.Executed, RiskGuard.Executed;
    var i := step.call.intent;
    var q, recorded := SubmittedShape(w, step.tx, i, step.call.strategyCall);
    CheckedAutonomy(w.guard, w.admin.paused, step.tx.height, q, ReadingOf(w, i));
    SubmittedStrategy(w, step.tx, i, step.call.strategyCall);
  }

  lemma CheckedAutonomy(g: RiskGuard.State, paused: bool, height: nat, q: RiskGuard.Request, m: RiskGuard.Reading)
    requires RiskGuard.CheckIntent(g, paused, height, q, m).Ok?
    ensures q.vault in g.configs && !paused && (q.callerIsOwner || g.configs[q.vault].autonomous)
  {
  }

  lemma SubmittedStrategy(w: World, tx: Tx, i: Intent, strategyCall: Vault.StrategyCall)
    requires Submitted(w, tx, i, strategyCall).Ok?
    ensures Some(strategyCall.strategyContract) == StrategyRegistry.StrategyContract(w.registry, i.strategy)
  {
    hide Evaluate, RiskGuard.IntentRecorded;
  }

  // ---- Pauses ----

  /** While the protocol is paused nothing flows in and nothing is invested, and no
      vault is created. */
  lemma ProtocolPauseStopsInflows(w: World, step: Step)
    requires FromOutside(step.tx) && w.admin.paused
    ensures var e := EffectOf(w, step); e.NoEffect? || e.Redeemed?
    ensures step.call.ToVault? && step.call.vault.CreateVault? ==> Executed(w, step) == Err(102)
  {
    hide PoolsExecuted, Submitted, ReceiptToken.Executed;
    hide ProtocolAdmin.Executed, AgentRegistry.Executed, StrategyRegistry.Executed, RiskGuard.Executed;
    if Executed(w, step).Ok? {
      match step.call
      case ToPools(call) => AcceptedInflow(w, step.tx, call);
      case ToEngine(i, strategyCall) =>
        ExecutionAuthority(w, step, i.vault);
        assert false;
      case _ =>
    }
  }

  /** While a vault is paused nothing flows into it and nothing of it is invested. */
  lemma VaultPauseStopsInflows(w: World, step: Step, id: nat)
    requires FromOutside(step.tx) && Vault.IsVaultPaused(w.funds.vault, id)
    ensures var e := EffectOf(w, step); e.NoEffect? || e.Redeemed? || e.pool.vault != id
  {
    hide PoolsExecuted, Submitted, ReceiptToken.Executed;
    hide ProtocolAdmin.Executed, AgentRegistry.Executed, StrategyRegistry.Executed, RiskGuard.Executed;
    if Executed(w, step).Ok? {
      match step.call
      case ToPools(call) => AcceptedInflow(w, step.tx, call);
      case ToEngine(i, strategyCall) => ExecutionAuthority(w, step, i.vault);
      case _ =>
    }
  }

  /** What a successful call that moves funds from outside must have found. */
  lemma AcceptedInflow(w: World, tx: Tx, call: PoolCall)
    requires FromOutside(tx) && PoolsExecuted(w, tx, call).Ok?
    ensures !call.ExecuteRebalance?
    ensures call.DepositStx? || call.DepositSbtc? ==>
      && !w.admin.paused
      && call.id in w.funds.vault.vaults
      && var info := w.funds.vault.vaults[call.id];
         !info.paused && (tx.sender == info.owner || info.openDeposits)
  {
    hide Vault.Credited, Vault.PreviewDeposit, Vault.StxRedeemed, Vault.SbtcRedeemed;
  }

  /** The same state with both pause switches set any way. */
  function WithPauses(w: World, id: nat, protocol: bool, vault: bool): World
    requires id in w.funds.vault.vaults
  {
    var s := w.funds.vault;
    w.(admin := w.admin.(paused := protocol),
       funds := w.funds.(vault := s.(vaults := s.vaults[id := s.vaults[id].(paused := vault)])))
  }

  /** No pause ever affects a redemption: under any setting of the two switches it
      gets the same answer. */
  lemma PausesNeverBlockRedemption(w: World, tx: Tx, call: PoolCall, protocol: bool, vault: bool)
    requires call.RedeemStx? || call.RedeemSbtc?
    requires call.id in w.funds.vault.vaults
    ensures AnswerOf(PoolsExecuted(WithPauses(w, call.id, protocol, vault), tx, call)) == AnswerOf(PoolsExecuted(w, tx, call))
  {
    hide Pricing.ComputeRedeemAssets, Ledger.StxMoved, Ledger.TokenMoved, ReceiptToken.Burned;
  }
}
