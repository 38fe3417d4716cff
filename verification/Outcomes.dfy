/** What every successful call leaves behind, and what it does not touch, written out
    from the fields of the state alone; and what stays so over a run. */
module Outcomes {
  import opened Clarity
  import opened Directory
  import opened Effects
  import opened Engine
  import opened Protocol
  import AgentRegistry
  import Answers
  import Ledger
  import ProtocolAdmin
  import ReceiptToken
  import RiskGuard
  import StrategyRegistry
  import Vault

  // ---- Settings ----

  /** `w` with one vault's entry replaced. */
  function WithVault(w: World, id: nat, info: Vault.Info): World {
    w.(funds := w.funds.(vault := w.funds.vault.(vaults := w.funds.vault.vaults[id := info])))
  }

  /** `w` with one vault's risk configuration replaced. */
  function WithConfig(w: World, id: nat, config: RiskGuard.Config): World {
    w.(guard := w.guard.(configs := w.guard.configs[id := config]))
  }

  ghost predicate AdminLeaves(w: World, tx: Tx, call: ProtocolAdmin.Call, w': World) {
    match call
    case ProposeAdmin(newAdmin) => w' == w.(admin := w.admin.(pendingAdmin := Some(newAdmin)))
    case AcceptAdmin => w' == w.(admin := w.admin.(admin := tx.sender, pendingAdmin := None))
    case PauseProtocol => w' == w.(admin := w.admin.(paused := true))
    case UnpauseProtocol => w' == w.(admin := w.admin.(paused := false))
  }

  ghost predicate AgentsLeave(w: World, tx: Tx, call: AgentRegistry.Call, w': World) {
    var entries, entries' := w.agents.executors, w'.agents.executors;
    && w' == w.(agents := w'.agents)
    && match call
       case RegisterExecutor(executor, tag) =>
         entries' == entries[executor := AgentRegistry.Executor(true, tag, tx.height, tx.sender)]
       case RevokeExecutor(executor) => executor in entries && entries' == entries[executor := entries[executor].(active := false)]
       case ReactivateExecutor(executor) => executor in entries && entries' == entries[executor := entries[executor].(active := true)]
  }

  ghost predicate RegistryLeaves(w: World, tx: Tx, call: StrategyRegistry.Call, w': World) {
    var entries, entries' := w.registry.strategies, w'.registry.strategies;
    && w' == w.(registry := w'.registry)
    && match call
       case RegisterStrategy(name, strategyContract, asset, maxBps) =>
         && w'.registry.nextStrategyId == w.registry.nextStrategyId + 1
         && entries' == entries[w.registry.nextStrategyId :=
              StrategyRegistry.Strategy(name, strategyContract, asset, false, maxBps, tx.height)]
       case ActivateStrategy(id) =>
         && w'.registry.nextStrategyId == w.registry.nextStrategyId
         && id in entries && entries' == entries[id := entries[id].(active := true)]
       case DeactivateStrategy(id) =>
         && w'.registry.nextStrategyId == w.registry.nextStrategyId
         && id in entries && entries' == entries[id := entries[id].(active := false)]
  }

  /** Calls to the guard from outside; the others are the vault's and the engine's. */
  ghost predicate GuardLeaves(w: World, call: RiskGuard.Call, w': World) {
    var g := w.guard;
    match call
    case SetApprovedSbtcAsset(asset) => w' == w.(guard := g.(approvedSbtc := Some(asset)))
    case SetProtocolLimits(slippage, exposure, cooldown, liquidity) =>
      && w' == w.(guard := w'.guard)
      && w'.guard.maxSlippageBps == slippage
      && w'.guard.maxExposureBps == exposure
      && w'.guard.minCooldown == cooldown
      && w'.guard.minLiquidityBps == liquidity
      && w'.guard.approvedSbtc == g.approvedSbtc && w'.guard.armed == g.armed && w'.guard.configs == g.configs
    case SetMainnetExecutionArmed(armed) => w' == w.(guard := g.(armed := armed))
    case _ => false
  }

  ghost predicate VaultLeaves(w: World, tx: Tx, call: VaultCall, w': World) {
    var s, configs := w.funds.vault, w.guard.configs;
    match call
    case CreateVault(c) =>
      var id, index := s.nextVaultId, Lookup(s.ownerCount, tx.sender);
      && w'.guard == w.guard.(configs := configs[id := RiskGuard.Config(c.params, c.autonomous, 0, 0)])
      && w' == w.(guard := w'.guard, funds := w.funds.(vault := w'.funds.vault))
      && w'.funds.vault == s.(
           nextVaultId := id + 1,
           vaults := s.vaults[id := Vault.Info(tx.sender, c.name, c.purpose, c.assets, c.openDeposits, false, tx.height)],
           ownerVaults := s.ownerVaults[Vault.IndexKey(tx.sender, index) := id],
           ownerCount := s.ownerCount[tx.sender := index + 1])
    case SetVaultConfig(id, name, openDeposits) =>
      id in s.vaults && w' == WithVault(w, id, s.vaults[id].(name := name, openDeposits := openDeposits))
    case SetRiskConfig(id, params, autonomous) =>
      id in configs && w' == WithConfig(w, id, RiskGuard.Config(params, autonomous, configs[id].lastNonce, configs[id].lastHeight))
    case SetAutonomousMode(id, enabled) =>
      id in configs && w' == WithConfig(w, id, configs[id].(autonomous := enabled))
    case PauseVault(id) => id in s.vaults && w' == WithVault(w, id, s.vaults[id].(paused := true))
    case UnpauseVault(id) => id in s.vaults && w' == WithVault(w, id, s.vaults[id].(paused := false))
  }

  /** Calls that move funds leave every setting and every vault's entry alone. */
  ghost predicate PoolsLeave(w: World, w': World) {
    && w' == w.(funds := w'.funds)
    && w'.funds.vault.vaults == w.funds.vault.vaults
    && w'.funds.vault.nextVaultId == w.funds.vault.nextVaultId
    && w'.funds.vault.ownerCount == w.funds.vault.ownerCount
    && w'.funds.vault.ownerVaults == w.funds.vault.ownerVaults
  }

  /** An executed intent leaves a new nonce and height, less idle, more allocated, and
      whatever token ledgers the strategy made of it. */
  ghost predicate EngineLeaves(w: World, tx: Tx, i: Intent, call: Vault.StrategyCall, w': World) {
    var s, configs, pool := w.funds.vault, w.guard.configs, PoolKey(i.vault, i.asset);
    && i.vault in configs && call.outcome.Some? && i.amount <= Lookup(s.idle, pool)
    && w'.guard == w.guard.(configs := configs[i.vault := configs[i.vault].(lastNonce := i.nonce, lastHeight := tx.height)])
    && w'.funds.vault == s.(
         idle := s.idle[pool := Lookup(s.idle, pool) - i.amount],
         allocations := s.allocations[AllocationKey(pool, i.strategy) :=
           Lookup(s.allocations, AllocationKey(pool, i.strategy)) + i.amount])
    && w' == w.(guard := w'.guard, funds := Vault.Treasury(w'.funds.vault, w.funds.receipts, call.outcome.value))
  }

  ghost predicate Leaves(w: World, step: Step, w': World) {
    match step.call
    case ToAdmin(call) => AdminLeaves(w, step.tx, call, w')
    case ToAgents(call) => AgentsLeave(w, step.tx, call, w')
    case ToRegistry(call) => RegistryLeaves(w, step.tx, call, w')
    case ToGuard(call) => GuardLeaves(w, call, w')
    case ToReceipts(_) => false
    case ToVault(call) => VaultLeaves(w, step.tx, call, w')
    case ToPools(_) => PoolsLeave(w, w')
    case ToEngine(i, strategyCall) => EngineLeaves(w, step.tx, i, strategyCall, w')
    case TokenActivity(after) => w' == w.(funds := w.funds.(ledger := after))
  }

  /** Every call that succeeds from outside leaves exactly what it is for, and every
      call that does not leaves everything as it was. */
  lemma OutcomesAreExact(w: World, step: Step)
    requires FromOutside(step.tx)
    ensures if Answers.Answer(w, step).Ok? then Leaves(w, step, Next(w, step)) else Next(w, step) == w
  {
    hide VaultExecuted, PoolsExecuted, Submitted, VaultLeaves, PoolsLeave, EngineLeaves, Answers.Answer;
    hide ProtocolAdmin.Executed, AgentRegistry.Executed, StrategyRegistry.Executed, RiskGuard.Executed;
    hide AdminLeaves, AgentsLeave, RegistryLeaves, GuardLeaves;
    Answers.AnswersAreExact(w, step);
    if Executed(w, step).Ok? {
      match step.call
      case ToAdmin(call) => AdminOutcome(w, step.tx, call);
      case ToAgents(call) => AgentsOutcome(w, step.tx, call);
      case ToRegistry(call) => RegistryOutcome(w, step.tx, call);
      case ToGuard(call) => GuardOutcome(w, step.tx, call);
      case ToVault(call) => VaultOutcome(w, step.tx, call);
      case ToPools(call) => PoolsOutcome(w, step.tx, call);
      case ToEngine(i, strategyCall) => EngineOutcome(w, step.tx, i, strategyCall);
      case _ =>
    }
  }

  lemma AdminOutcome(w: World, tx: Tx, call: ProtocolAdmin.Call)
    requires ProtocolAdmin.Executed(w.admin, tx, call).Ok?
    ensures AdminLeaves(w, tx, call, w.(admin := ProtocolAdmin.Executed(w.admin, tx, call).value.0))
  {
  }

  lemma AgentsOutcome(w: World, tx: Tx, call: AgentRegistry.Call)
    requires AgentRegistry.Executed(w.agents, tx, w.admin.admin, call).Ok?
    ensures AgentsLeave(w, tx, call, w.(agents := AgentRegistry.Executed(w.agents, tx, w.admin.admin, call).value.0))
  {
  }

  lemma RegistryOutcome(w: World, tx: Tx, call: StrategyRegistry.Call)
    requires StrategyRegistry.Executed(w.registry, tx, w.admin.admin, call).Ok?
    ensures RegistryLeaves(w, tx, call, w.(registry := StrategyRegistry.Executed(w.registry, tx, w.admin.admin, call).value.0))
  {
  }

  lemma GuardOutcome(w: World, tx: Tx, call: RiskGuard.Call)
    requires FromOutside(tx) && RiskGuard.Executed(w.guard, tx, w.admin.admin, w.admin.paused, call).Ok?
    ensures GuardLeaves(w, call, w.(guard := RiskGuard.Executed(w.guard, tx, w.admin.admin, w.admin.paused, call).value.0))
  {
  }

  lemma VaultOutcome(w: World, tx: Tx, call: VaultCall)
    requires VaultExecuted(w, tx, call).Ok?
    ensures VaultLeaves(w, tx, call, VaultExecuted(w, tx, call).value.0)
  {
  }

  lemma EngineOutcome(w: World, tx: Tx, i: Intent, strategyCall: Vault.StrategyCall)
    requires Submitted(w, tx, i, strategyCall).Ok?
    ensures EngineLeaves(w, tx, i, strategyCall, Submitted(w, tx, i, strategyCall).value.0)
  {
    hide Submitted;
    var q, recorded := SubmittedShape(w, tx, i, strategyCall);
  }

  lemma PoolsOutcome(w: World, tx: Tx, call: PoolCall)
    requires FromOutside(tx) && PoolsExecuted(w, tx, call).Ok?
    ensures PoolsLeave(w, w.(funds := PoolsExecuted(w, tx, call).value.0))
  {
    hide Vault.StxDeposited, Vault.SbtcDeposited, Vault.StxRedeemed, Vault.SbtcRedeemed, Vault.Credited, Vault.Debited;
    hide Vault.PreviewDeposit, Vault.PreviewRedeem;
    var t := w.funds;
    match call
    case DepositStx(id, amount) =>
      var shares, ledger := StxDepositParts(t, w.admin.paused, tx, id, amount);
      CreditOutcome(t.(ledger := ledger), PoolKey(id, STX), tx.sender, amount, shares);
    case DepositSbtc(id, amount, token, accepts) =>
      var shares, ledger := SbtcDepositParts(t, w.admin.paused, w.guard.approvedSbtc, tx, id, amount, token, accepts);
      CreditOutcome(t.(ledger := ledger), PoolKey(id, SBTC), tx.sender, amount, shares);
    case RedeemStx(id, shares) =>
      var payout, debited := StxRedeemParts(t, tx, id, shares);
      DebitedShape(t, PoolKey(id, STX), tx.sender, shares, payout);
    case RedeemSbtc(id, shares, token, accepts) =>
      var payout, debited := SbtcRedeemParts(t, w.guard.approvedSbtc, tx, id, shares, token, accepts);
      DebitedShape(t, PoolKey(id, SBTC), tx.sender, shares, payout);
    case ExecuteRebalance(_, _, _, _) => assert false;
  }

  lemma CreditOutcome(t: Vault.Treasury, pool: PoolKey, holder: Principal, amount: nat, shares: nat)
    requires Vault.Credited(t, pool, holder, amount, shares).Ok?
    ensures var s, s' := t.vault, Vault.Credited(t, pool, holder, amount, shares).value.0.vault;
            && s'.vaults == s.vaults && s'.nextVaultId == s.nextVaultId
            && s'.ownerCount == s.ownerCount && s'.ownerVaults == s.ownerVaults
    ensures Vault.Credited(t, pool, holder, amount, shares).value.0.ledger == t.ledger
    ensures Vault.Credited(t, pool, holder, amount, shares).value.1 == shares
  {
    hide Vault.Credited, Vault.HolderRegistered;
    var vault := CreditedShape(t, pool, holder, amount, shares);
    RegisteredShape(vault, holder, pool.vault);
  }

  // ---- Real money ----

  /** Exactly `amount` STX went from one to the other. */
  ghost predicate StxWent(before: Ledger.State, after: Ledger.State, amount: nat, from: Principal, to: Principal) {
    && after.tokens == before.tokens
    && forall who :: Lookup(after.stx, who) == Lookup(before.stx, who)
         + (if who == to then amount else 0) - (if who == from then amount else 0)
  }

  /** Exactly `amount` of one token went from one to the other. */
  ghost predicate TokensWent(
    before: Ledger.State, after: Ledger.State, token: Option<Principal>, amount: nat, from: Principal, to: Principal)
  {
    && after.stx == before.stx
    && token.Some?
    && forall t, who :: Lookup(after.tokens, Ledger.TokenKey(t, who)) == Lookup(before.tokens, Ledger.TokenKey(t, who))
         + (if t == token.value && who == to then amount else 0) - (if t == token.value && who == from then amount else 0)
  }

  ghost predicate MoneyMoved(before: Ledger.State, after: Ledger.State, approved: Option<Principal>, e: Effect, call: Call) {
    match e
    case Deposited(pool, holder, amount, _) =>
      if pool.asset == STX then StxWent(before, after, amount, holder, VaultContract)
      else TokensWent(before, after, approved, amount, holder, VaultContract)
    case Redeemed(pool, holder, _, amount) =>
      if pool.asset == STX then StxWent(before, after, amount, VaultContract, holder)
      else TokensWent(before, after, approved, amount, VaultContract, holder)
    case Invested(_, _, _) => call.ToEngine? && call.strategyCall.outcome == Some(after)
    case NoEffect => if call.TokenActivity? then after == call.after else after == before
  }

  /** The sender of a deposit, and nobody else, pays exactly its amount to the vault; the
      sender of a redemption, and nobody else, is paid exactly its payout; nothing else
      that goes through the protocol moves any money. */
  lemma MoneyIsExact(w: World, step: Step)
    requires FromOutside(step.tx)
    ensures MoneyMoved(w.funds.ledger, Next(w, step).funds.ledger, w.guard.approvedSbtc, EffectOf(w, step), step.call)
    ensures var e := EffectOf(w, step); e.Deposited? || e.Redeemed? ==> e.holder == step.tx.sender
  {
    hide VaultExecuted, PoolsExecuted, Submitted, StxWent, TokensWent;
    hide ProtocolAdmin.Executed, AgentRegistry.Executed, StrategyRegistry.Executed, RiskGuard.Executed, ReceiptToken.Executed;
    if Executed(w, step).Ok? {
      match step.call
      case ToVault(call) => VaultMoney(w, step.tx, call);
      case ToPools(call) => PoolsMoney(w, step.tx, call);
      case ToEngine(i, strategyCall) => var q, recorded := SubmittedShape(w, step.tx, i, strategyCall);
      case ToReceipts(call) => ReceiptsFromOutside(w.funds.receipts, step.tx, call);
      case _ =>
    }
  }

  lemma VaultMoney(w: World, tx: Tx, call: VaultCall)
    requires VaultExecuted(w, tx, call).Ok?
    ensures VaultExecuted(w, tx, call).value.0.funds.ledger == w.funds.ledger
  {
  }

  lemma PoolsMoney(w: World, tx: Tx, call: PoolCall)
    requires FromOutside(tx) && PoolsExecuted(w, tx, call).Ok?
    ensures var (funds, v) := PoolsExecuted(w, tx, call).value;
            MoneyMoved(w.funds.ledger, funds.ledger, w.guard.approvedSbtc, CallEffect(tx, ToPools(call), v), ToPools(call))
  {
    hide Vault.StxDeposited, Vault.SbtcDeposited, Vault.StxRedeemed, Vault.SbtcRedeemed, Vault.Credited, Vault.Debited;
    hide Vault.PreviewDeposit, Vault.PreviewRedeem, StxWent, TokensWent;
    var t := w.funds;
    match call
    case DepositStx(id, amount) =>
      var shares, ledger := StxDepositParts(t, w.admin.paused, tx, id, amount);
      CreditOutcome(t.(ledger := ledger), PoolKey(id, STX), tx.sender, amount, shares);
      StxMovedWent(t.ledger, amount, tx.sender, VaultContract);
    case DepositSbtc(id, amount, token, accepts) =>
      var shares, ledger := SbtcDepositParts(t, w.admin.paused, w.guard.approvedSbtc, tx, id, amount, token, accepts);
      CreditOutcome(t.(ledger := ledger), PoolKey(id, SBTC), tx.sender, amount, shares);
      TokenMovedWent(t.ledger, token, accepts, amount, tx.sender, VaultContract);
    case RedeemStx(id, shares) =>
      var payout, debited := StxRedeemParts(t, tx, id, shares);
      StxMovedWent(t.ledger, payout, VaultContract, tx.sender);
    case RedeemSbtc(id, shares, token, accepts) =>
      var payout, debited := SbtcRedeemParts(t, w.guard.approvedSbtc, tx, id, shares, token, accepts);
      TokenMovedWent(t.ledger, token, accepts, payout, VaultContract, tx.sender);
    case ExecuteRebalance(_, _, _, _) => assert false;
  }

  lemma StxMovedWent(s: Ledger.State, amount: nat, from: Principal, to: Principal)
    ensures var r := Ledger.StxMoved(s, amount, from, to); r.Some? ==> StxWent(s, r.value, amount, from, to)
  {
    hide Ledger.StxMoved;
    var r := Ledger.StxMoved(s, amount, from, to);
    if r.Some? {
      forall who
        ensures Lookup(r.value.stx, who) == Lookup(s.stx, who) + (if who == to then amount else 0) - (if who == from then amount else 0)
      {
        assert r.value.StxOf(who) == Lookup(r.value.stx, who) && s.StxOf(who) == Lookup(s.stx, who);
      }
    }
  }

  lemma TokenMovedWent(s: Ledger.State, token: Principal, accepts: bool, amount: nat, from: Principal, to: Principal)
    ensures var r := Ledger.TokenMoved(s, token, accepts, amount, from, to);
            r.Some? ==> TokensWent(s, r.value, Some(token), amount, from, to)
  {
    hide Ledger.TokenMoved;
    var r := Ledger.TokenMoved(s, token, accepts, amount, from, to);
    if r.Some? {
      forall t, who
        ensures Lookup(r.value.tokens, Ledger.TokenKey(t, who)) == Lookup(s.tokens, Ledger.TokenKey(t, who))
             + (if t == token && who == to then amount else 0) - (if t == token && who == from then amount else 0)
      {
        assert r.value.TokensOf(t, who) == Lookup(r.value.tokens, Ledger.TokenKey(t, who));
        assert s.TokensOf(t, who) == Lookup(s.tokens, Ledger.TokenKey(t, who));
      }
    }
  }

  // ---- Deployment ----

  /** What the protocol starts with: the deployer as admin, nothing paused, nothing
      armed, no token approved, 10% slippage and 50% exposure at most, 5% idle and one
      block of cooldown at least, and no vault, strategy, executor or share. */
  lemma FreshlyDeployed(deployer: Principal, holdings: Ledger.State)
    ensures var w := Genesis(deployer, holdings);
            && w.admin == ProtocolAdmin.State(deployer, None, false)
            && !w.guard.armed && w.guard.approvedSbtc == None && w.guard.configs == map[]
            && w.guard.maxSlippageBps == 1000 && w.guard.maxExposureBps == 5000
            && w.guard.minCooldown == 1 && w.guard.minLiquidityBps == 500
            && w.agents.executors == map[]
            && w.registry.strategies == map[] && w.registry.nextStrategyId == 1
            && w.funds.vault.vaults == map[] && w.funds.vault.nextVaultId == 1
            && w.funds.receipts.balances == map[] && w.funds.receipts.supplies == map[]
            && w.funds.ledger == holdings
  {
  }

  // ---- A pause lasts ----

  predicate PausedAt(w0: World, steps: seq<Step>, n: nat, id: nat)
    requires n <= |steps|
  {
    var vaults := StateAt(w0, steps, n).funds.vault.vaults;
    id in vaults && vaults[id].paused
  }

  /** The owner of the vault unpauses it with this step. */
  predicate OwnerUnpauses(w: World, step: Step, id: nat) {
    step.call == ToVault(UnpauseVault(id)) && id in w.funds.vault.vaults && step.tx.sender == w.funds.vault.vaults[id].owner
  }

  lemma StepKeepsPause(w: World, step: Step, id: nat)
    requires FromOutside(step.tx) && DirectoryExact(w.funds.vault)
    requires id in w.funds.vault.vaults && w.funds.vault.vaults[id].paused && !OwnerUnpauses(w, step, id)
    ensures var vaults := Next(w, step).funds.vault.vaults; id in vaults && vaults[id].paused
  {
    hide Executed, Next, PoolsLeave, EngineLeaves;
    assert w.funds.vault.nextVaultId != id;
    OutcomesAreExact(w, step);
    hide DirectoryExact;
    if Answers.Answer(w, step).Ok? {
      LeavesPause(w, step, Next(w, step), id);
    }
  }

  lemma LeavesPause(w: World, step: Step, w': World, id: nat)
    requires Leaves(w, step, w') && Answers.Answer(w, step).Ok?
    requires id in w.funds.vault.vaults && id != w.funds.vault.nextVaultId && !OwnerUnpauses(w, step, id)
    ensures id in w'.funds.vault.vaults && (w.funds.vault.vaults[id].paused ==> w'.funds.vault.vaults[id].paused)
  {
    hide Answers.VaultAnswer, Answers.PoolsAnswer, Answers.SubmitAnswer, Answers.GuardAnswer, VaultLeaves;
    match step.call
    case ToVault(call) => VaultLeavesPause(w, step.tx, call, w', id);
    case _ =>
  }

  lemma VaultLeavesPause(w: World, tx: Tx, call: VaultCall, w': World, id: nat)
    requires VaultLeaves(w, tx, call, w') && Answers.VaultAnswer(w, tx, call).Ok?
    requires id in w.funds.vault.vaults && id != w.funds.vault.nextVaultId && !OwnerUnpauses(w, Step(tx, ToVault(call)), id)
    ensures id in w'.funds.vault.vaults && (w.funds.vault.vaults[id].paused ==> w'.funds.vault.vaults[id].paused)
  {
    hide Answers.BadParams;
  }

  /** A paused vault stays paused through everything that can happen until its owner
      unpauses it, and its directory stays exact. */
  lemma {:induction false} PausedUntilUnpaused(w0: World, steps: seq<Step>, i: nat, j: nat, id: nat)
    requires PossibleRun(w0, steps) && i <= j <= |steps|
    requires DirectoryExact(StateAt(w0, steps, i).funds.vault) && PausedAt(w0, steps, i, id)
    requires forall k :: i <= k < j ==> !OwnerUnpauses(StateAt(w0, steps, k), steps[k], id)
    ensures DirectoryExact(StateAt(w0, steps, j).funds.vault) && PausedAt(w0, steps, j, id)
    decreases j - i
  {
    hide Executed, EffectOf, StateAt, Next, PossibleRun, Possible, DirectoryExact, OwnerUnpauses;
    if i < j {
      var w := StateAt(w0, steps, j - 1);
      PausedUntilUnpaused(w0, steps, i, j - 1, id);
      RunStep(w0, steps, j - 1);
      StepDirectory(w, steps[j - 1]);
      DirectoryStepKeepsExact(w.funds.vault, Next(w, steps[j - 1]).funds.vault, EffectOf(w, steps[j - 1]));
      StepKeepsPause(w, steps[j - 1], id);
    }
  }

  /** Pausing pauses: after the owner's pause-vault, until the owner's unpause-vault,
      every deposit into the vault that gets as far as its pause check, that is past
      the pricing, the asset mode and the protocol's own pause, is refused with u112,
      and no deposit goes through. */
  lemma PausingPauses(
    w0: World, steps: seq<Step>, i: nat, j: nat, id: nat, tx: Tx, amount: nat, token: Principal, accepts: bool)
    requires PossibleRun(w0, steps) && i < j <= |steps|
    requires DirectoryExact(StateAt(w0, steps, i).funds.vault)
    requires steps[i].call == ToVault(PauseVault(id)) && Executed(StateAt(w0, steps, i), steps[i]).Ok?
    requires forall k :: i < k < j ==> !OwnerUnpauses(StateAt(w0, steps, k), steps[k], id)
    ensures PausedAt(w0, steps, j, id)
    ensures PausedAnswers(StateAt(w0, steps, j), id, tx, amount, token, accepts)
  {
    hide StateAt, Next, PossibleRun, DirectoryExact, OwnerUnpauses, Executed, PausedAnswers;
    RunStep(w0, steps, i);
    PauseIsSet(StateAt(w0, steps, i), steps[i], id);
    StepKeepsDirectory(StateAt(w0, steps, i), steps[i]);
    PausedUntilUnpaused(w0, steps, i + 1, j, id);
    PausedVaultAnswers(StateAt(w0, steps, j), id, tx, amount, token, accepts);
  }

  /** What a paused vault answers to deposits. */
  ghost predicate PausedAnswers(w: World, id: nat, tx: Tx, amount: nat, token: Principal, accepts: bool)
    requires id in w.funds.vault.vaults
  {
    var stx := Executed(w, Step(tx, ToPools(DepositStx(id, amount))));
    var sbtc := Executed(w, Step(tx, ToPools(DepositSbtc(id, amount, token, accepts))));
    var (priced, sbtcPriced) := (PricedDeposit(w, PoolKey(id, STX), amount, 1000000), PricedDeposit(w, PoolKey(id, SBTC), amount, 10000));
    var mode := w.funds.vault.vaults[id].assets;
    && !stx.Ok? && !sbtc.Ok?
    && (priced && (mode == 1 || mode == 3) && !w.admin.paused ==> stx == Err(112))
    && (sbtcPriced && (mode == 2 || mode == 3) && !w.admin.paused && w.guard.approvedSbtc.Some? ==> sbtc == Err(112))
  }

  /** The deposit gets a positive number of shares. */
  predicate PricedDeposit(w: World, pool: PoolKey, amount: nat, least: nat) {
    Answers.SharesAnswer(Lookup(w.funds.receipts.supplies, pool), Lookup(w.funds.vault.total, pool), amount, least).Ok?
  }

  lemma PausedVaultAnswers(w: World, id: nat, tx: Tx, amount: nat, token: Principal, accepts: bool)
    requires id in w.funds.vault.vaults && w.funds.vault.vaults[id].paused
    ensures PausedAnswers(w, id, tx, amount, token, accepts)
  {
    hide Executed, Answers.SharesAnswer, Answers.CreditAnswer;
    Answers.AnswersAreExact(w, Step(tx, ToPools(DepositStx(id, amount))));
    Answers.AnswersAreExact(w, Step(tx, ToPools(DepositSbtc(id, amount, token, accepts))));
  }

  lemma StepKeepsDirectory(w: World, step: Step)
    requires FromOutside(step.tx) && DirectoryExact(w.funds.vault)
    ensures DirectoryExact(Next(w, step).funds.vault)
  {
    hide Executed, EffectOf, Next, DirectoryExact;
    StepDirectory(w, step);
    DirectoryStepKeepsExact(w.funds.vault, Next(w, step).funds.vault, EffectOf(w, step));
  }

  lemma PauseIsSet(w: World, step: Step, id: nat)
    requires FromOutside(step.tx) && step.call == ToVault(PauseVault(id)) && Executed(w, step).Ok?
    ensures var vaults := Next(w, step).funds.vault.vaults; id in vaults && vaults[id].paused
  {
    hide Executed, Next, Answers.Answer;
    Answers.AnswersAreExact(w, step);
    OutcomesAreExact(w, step);
  }
}
