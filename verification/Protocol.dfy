/** The whole protocol as one state machine: every public function of every
    contract, called from outside, commits or changes nothing. */
module Protocol {
  import opened Clarity
  import opened Engine
  import AgentRegistry
  import Ledger
  import ProtocolAdmin
  import ReceiptToken
  import RiskGuard
  import StrategyRegistry
  import Vault

  datatype VaultCall =
    | CreateVault(creation: Vault.Creation)
    | SetVaultConfig(id: nat, name: string, openDeposits: bool)
    | SetRiskConfig(id: nat, params: RiskGuard.Params, autonomous: bool)
    | SetAutonomousMode(id: nat, enabled: bool)
    | PauseVault(id: nat)
    | UnpauseVault(id: nat)

  /** The calls that move funds. */
  datatype PoolCall =
    | DepositStx(id: nat, amount: nat)
    | DepositSbtc(id: nat, amount: nat, token: Principal, accepts: bool)
    | RedeemStx(id: nat, shares: nat)
    | RedeemSbtc(id: nat, shares: nat, token: Principal, accepts: bool)
    | ExecuteRebalance(pool: PoolKey, strategy: nat, amount: nat, strategyCall: Vault.StrategyCall)

  datatype Call =
    | ToAdmin(admin: ProtocolAdmin.Call)
    | ToAgents(agents: AgentRegistry.Call)
    | ToRegistry(registry: StrategyRegistry.Call)
    | ToGuard(guard: RiskGuard.Call)
    | ToReceipts(receipts: ReceiptToken.Call)
    | ToVault(vault: VaultCall)
    | ToPools(pools: PoolCall)
    | ToEngine(intent: Intent, strategyCall: Vault.StrategyCall)
    // Any transfer in the token ledgers that is not the protocol's, donations included.
    | TokenActivity(after: Ledger.State)

  datatype Step = Step(tx: Tx, call: Call)

  function VaultExecuted(w: World, tx: Tx, call: VaultCall): Response<(World, nat)> {
    var paused := w.admin.paused;
    match call
    case CreateVault(creation) =>
      var ((vault, guard), v) :- Vault.VaultCreated(w.funds.vault, w.guard, paused, tx, creation);
      Ok((w.(funds := w.funds.(vault := vault), guard := guard), v))
    case SetVaultConfig(id, name, openDeposits) =>
      var (vault, v) :- Vault.ConfigSet(w.funds.vault, tx, id, name, openDeposits);
      Ok((w.(funds := w.funds.(vault := vault)), v))
    case SetRiskConfig(id, params, autonomous) =>
      var (guard, v) :- Vault.RiskConfigSet(w.funds.vault, w.guard, tx, id, params, autonomous);
      Ok((w.(guard := guard), v))
    case SetAutonomousMode(id, enabled) =>
      var (guard, v) :- Vault.AutonomousModeSet(w.funds.vault, w.guard, tx, id, enabled);
      Ok((w.(guard := guard), v))
    case PauseVault(id) =>
      var (vault, v) :- Vault.PausedSet(w.funds.vault, tx, id, true);
      Ok((w.(funds := w.funds.(vault := vault)), v))
    case UnpauseVault(id) =>
      var (vault, v) :- Vault.PausedSet(w.funds.vault, tx, id, false);
      Ok((w.(funds := w.funds.(vault := vault)), v))
  }

  function PoolsExecuted(w: World, tx: Tx, call: PoolCall): Response<(Vault.Treasury, nat)> {
    match call
    case DepositStx(id, amount) => Vault.StxDeposited(w.funds, w.admin.paused, tx, id, amount)
    case DepositSbtc(id, amount, token, accepts) =>
      Vault.SbtcDeposited(w.funds, w.admin.paused, w.guard.approvedSbtc, tx, id, amount, token, accepts)
    case RedeemStx(id, shares) => Vault.StxRedeemed(w.funds, tx, id, shares)
    case RedeemSbtc(id, shares, token, accepts) =>
      Vault.SbtcRedeemed(w.funds, w.guard.approvedSbtc, tx, id, shares, token, accepts)
    case ExecuteRebalance(pool, strategy, amount, strategyCall) =>
      Vault.Rebalanced(w.funds, RiskGuard.IsExecutionEnabled(w.guard, tx),
                       StrategyRegistry.StrategyContract(w.registry, strategy),
                       tx.caller, pool, strategy, amount, strategyCall)
  }

  function Executed(w: World, step: Step): Response<(World, nat)> {
    var tx := step.tx;
    match step.call
    case ToAdmin(call) =>
      var (admin, v) :- ProtocolAdmin.Executed(w.admin, tx, call);
      Ok((w.(admin := admin), v))
    case ToAgents(call) =>
      var (agents, v) :- AgentRegistry.Executed(w.agents, tx, w.admin.admin, call);
      Ok((w.(agents := agents), v))
    case ToRegistry(call) =>
      var (registry, v) :- StrategyRegistry.Executed(w.registry, tx, w.admin.admin, call);
      Ok((w.(registry := registry), v))
    case ToGuard(call) =>
      var (guard, v) :- RiskGuard.Executed(w.guard, tx, w.admin.admin, w.admin.paused, call);
      Ok((w.(guard := guard), v))
    case ToReceipts(call) =>
      var (receipts, v) :- ReceiptToken.Executed(w.funds.receipts, tx, call);
      Ok((w.(funds := w.funds.(receipts := receipts)), v))
    case ToVault(call) => VaultExecuted(w, tx, call)
    case ToPools(call) =>
      var (funds, v) :- PoolsExecuted(w, tx, call);
      Ok((w.(funds := funds), v))
    case ToEngine(intent, strategyCall) => Submitted(w, tx, intent, strategyCall)
    case TokenActivity(after) => Ok((w.(funds := w.funds.(ledger := after)), TRUE))
  }

  /** The state after a step: a call that does not answer `(ok ...)` leaves everything as it was. */
  function Next(w: World, step: Step): World {
    var r := Executed(w, step);
    if r.Ok? then r.value.0 else w
  }

  /** The runtime's contract: commit what the specification says, or restore everything. */
  ghost predicate Committed(spec: Response<(World, nat)>, r: Response<nat>, before: World, after: World) {
    match spec
    case Ok((w, v)) => r == Ok(v) && after == w
    case Err(c) => r == Err(c) && after == before
    case Abort => r == Abort && after == before
  }

  /** What can happen on the chain: transactions enter from outside, and nobody
      else moves what the vault holds. */
  ghost predicate Possible(w: World, step: Step) {
    && FromOutside(step.tx)
    && (step.call.TokenActivity? ==> Ledger.VaultKeepsAll(w.funds.ledger, step.call.after))
  }

  /** Right after deployment. */
  function Genesis(deployer: Principal, holdings: Ledger.State): World {
    World(ProtocolAdmin.State(deployer, None, false),
          AgentRegistry.State(map[]),
          StrategyRegistry.State(1, map[]),
          RiskGuard.INITIAL,
          Vault.Treasury(Vault.EMPTY, ReceiptToken.State(map[], map[]), holdings))
  }

  /** The state after the first `n` steps. */
  function StateAt(w0: World, steps: seq<Step>, n: nat): World
    requires n <= |steps|
  {
    if n == 0 then w0 else Next(StateAt(w0, steps, n - 1), steps[n - 1])
  }

  ghost predicate PossibleRun(w0: World, steps: seq<Step>) {
    forall n :: 0 <= n < |steps| ==> Possible(StateAt(w0, steps, n), steps[n])
  }

  lemma RunStart(w0: World, steps: seq<Step>)
    ensures StateAt(w0, steps, 0) == w0
  {
  }

  lemma RunStep(w0: World, steps: seq<Step>, n: nat)
    requires PossibleRun(w0, steps) && n < |steps|
    ensures Possible(StateAt(w0, steps, n), steps[n]) && FromOutside(steps[n].tx)
    ensures StateAt(w0, steps, n + 1) == Next(StateAt(w0, steps, n), steps[n])
  {
    hide Next;
  }

  /** What is appended to a run does not change how it began. */
  lemma {:induction false} StateAtPrefix(w0: World, a: seq<Step>, b: seq<Step>, n: nat)
    requires n <= |a|
    ensures StateAt(w0, a + b, n) == StateAt(w0, a, n)
  {
    hide Next;
    if n > 0 {
      StateAtPrefix(w0, a, b, n - 1);
      assert (a + b)[n - 1] == a[n - 1];
    }
  }

  // ---- The deployed contracts ----

  /** The contracts and the runtime that commits or undoes their in-place changes. */
  class Runtime {
    const engine: Engine.Contract

    ghost predicate Wired() {
      engine.Wired()
    }

    ghost function View(): World
      reads engine.Contracts()
    {
      engine.View()
    }

    constructor (deployer: Principal, holdings: Ledger.State)
      ensures Wired() && View() == Genesis(deployer, holdings)
      ensures fresh(engine.Contracts())
    {
      var admin := new ProtocolAdmin.Contract(deployer);
      var agents := new AgentRegistry.Contract();
      var registry := new StrategyRegistry.Contract();
      var guard := new RiskGuard.Contract();
      var receipts := new ReceiptToken.Contract();
      var ledger := new Ledger.Contract(holdings);
      var vault := new Vault.Contract(guard, receipts, ledger);
      engine := new Engine.Contract(admin, agents, registry, vault);
    }

    /** One transaction: the contracts' in-place code followed by commit or undo
        is exactly one step of the state machine. */
    method Transact(step: Step) returns (r: Response<nat>)
      requires Wired()
      modifies engine.Contracts()
      ensures Committed(Executed(old(View()), step), r, old(View()), View())
    {
      var before := Snapshot();
      r := Dispatch(step);
      if !r.Ok? {
        Restore(before);
      }
    }

    method Snapshot() returns (w: World)
      ensures w == View()
    {
      var vault := engine.vault;
      var g := engine.guard;
      w := World(
        ProtocolAdmin.State(engine.admin.admin, engine.admin.pendingAdmin, engine.admin.paused),
        AgentRegistry.State(engine.agents.executors),
        StrategyRegistry.State(engine.registry.nextStrategyId, engine.registry.strategies),
        RiskGuard.State(g.maxSlippageBps, g.maxExposureBps, g.minCooldown, g.minLiquidityBps, g.approvedSbtc, g.armed, g.configs),
        Vault.Treasury(
          Vault.State(vault.nextVaultId, vault.vaults, vault.ownerCount, vault.ownerVaults,
                      vault.holderCount, vault.holderVaults, vault.holderRegistered,
                      vault.idle, vault.total, vault.allocations),
          ReceiptToken.State(vault.receipts.balances, vault.receipts.supplies),
          Ledger.State(vault.ledger.stx, vault.ledger.tokens)));
    }

    method Restore(w: World)
      modifies engine.Contracts()
      ensures View() == w
    {
      engine.admin.Assign(w.admin);
      engine.agents.Assign(w.agents);
      engine.registry.Assign(w.registry);
      engine.guard.Assign(w.guard);
      engine.vault.Assign(w.funds.vault);
      engine.vault.receipts.Assign(w.funds.receipts);
      engine.vault.ledger.Assign(w.funds.ledger);
    }

    method Dispatch(step: Step) returns (r: Response<nat>)
      requires Wired()
      modifies engine.Contracts()
      ensures Agrees(Executed(old(View()), step), r, View())
    {
      hide ProtocolAdmin.Executed, AgentRegistry.Executed, StrategyRegistry.Executed, RiskGuard.Executed, ReceiptToken.Executed;
      hide VaultExecuted, PoolsExecuted, Submitted;
      var tx := step.tx;
      match step.call {
        case ToAdmin(call) => r := DispatchAdmin(tx, call);
        case ToAgents(call) => r := DispatchAgents(tx, call);
        case ToRegistry(call) => r := DispatchRegistry(tx, call);
        case ToGuard(call) => r := DispatchGuard(tx, call);
        case ToReceipts(call) => r := DispatchReceipts(tx, call);
        case ToVault(call) => r := DispatchVault(tx, call);
        case ToPools(call) => r := DispatchPools(tx, call);
        case ToEngine(intent, strategyCall) => r := engine.Submit(tx, intent, strategyCall);
        case TokenActivity(after) =>
          engine.vault.ledger.Assign(after);
          r := Ok(TRUE);
      }
    }

    method DispatchAdmin(tx: Tx, call: ProtocolAdmin.Call) returns (r: Response<nat>)
      modifies engine.admin
      ensures Agrees(ProtocolAdmin.Executed(old(engine.admin.View()), tx, call), r, engine.admin.View())
    {
      match call {
        case ProposeAdmin(newAdmin) => r := engine.admin.Propose(tx, newAdmin);
        case AcceptAdmin => r := engine.admin.Accept(tx);
        case PauseProtocol => r := engine.admin.SetPaused(tx, true);
        case UnpauseProtocol => r := engine.admin.SetPaused(tx, false);
      }
    }

    method DispatchAgents(tx: Tx, call: AgentRegistry.Call) returns (r: Response<nat>)
      modifies engine.agents
      ensures Agrees(AgentRegistry.Executed(old(engine.agents.View()), tx, engine.admin.admin, call), r, engine.agents.View())
    {
      var admin := engine.admin.admin;
      match call {
        case RegisterExecutor(executor, tag) => r := engine.agents.Register(tx, admin, executor, tag);
        case RevokeExecutor(executor) => r := engine.agents.SetActive(tx, admin, executor, false);
        case ReactivateExecutor(executor) => r := engine.agents.SetActive(tx, admin, executor, true);
      }
    }

    method DispatchRegistry(tx: Tx, call: StrategyRegistry.Call) returns (r: Response<nat>)
      modifies engine.registry
      ensures Agrees(StrategyRegistry.Executed(old(engine.registry.View()), tx, engine.admin.admin, call), r, engine.registry.View())
    {
      var admin := engine.admin.admin;
      match call {
        case RegisterStrategy(name, strategyContract, asset, maxBps) =>
          r := engine.registry.Register(tx, admin, name, strategyContract, asset, maxBps);
        case ActivateStrategy(id) => r := engine.registry.SetActive(tx, admin, id, true);
        case DeactivateStrategy(id) => r := engine.registry.SetActive(tx, admin, id, false);
      }
    }

    method DispatchReceipts(tx: Tx, call: ReceiptToken.Call) returns (r: Response<nat>)
      modifies engine.vault.receipts
      ensures Agrees(ReceiptToken.Executed(old(engine.vault.receipts.View()), tx, call), r, engine.vault.receipts.View())
    {
      match call {
        case Mint(pool, amount, recipient) => r := engine.vault.receipts.MintShares(tx.caller, pool, amount, recipient);
        case Burn(pool, amount, holder) => r := engine.vault.receipts.BurnShares(tx.caller, pool, amount, holder);
        case Transfer(_, _, _, _) => r := Err(704);
      }
    }

    method DispatchGuard(tx: Tx, call: RiskGuard.Call) returns (r: Response<nat>)
      requires Wired()
      modifies engine.guard
      ensures Agrees(RiskGuard.Executed(old(engine.guard.View()), tx, engine.admin.admin, engine.admin.paused, call), r, engine.guard.View())
    {
      var admin := engine.admin.admin;
      match call {
        case SetApprovedSbtcAsset(asset) => r := engine.guard.ApproveSbtcAsset(tx, admin, asset);
        case SetProtocolLimits(slippage, exposure, cooldown, liquidity) =>
          r := engine.guard.SetLimits(tx, admin, slippage, exposure, cooldown, liquidity);
        case SetMainnetExecutionArmed(armed) => r := engine.guard.SetArmed(tx, admin, armed);
        case InitVaultConfig(vault, params, autonomous) => r := engine.guard.InitConfig(tx.caller, vault, params, autonomous);
        case SetVaultRiskConfig(vault, params, autonomous) => r := engine.guard.ReplaceConfig(tx.caller, vault, params, autonomous);
        case SetAutonomousEnabled(vault, enabled) => r := engine.guard.SetAutonomy(tx.caller, vault, enabled);
        case ValidateAndRecordIntent(request, reading) =>
          r := engine.guard.RecordIntent(tx, tx.caller, engine.admin.paused, request, reading);
      }
    }

    method DispatchVault(tx: Tx, call: VaultCall) returns (r: Response<nat>)
      requires Wired()
      modifies engine.guard, engine.vault
      ensures Agrees(VaultExecuted(old(View()), tx, call), r, View())
    {
      var vault := engine.vault;
      var paused := engine.admin.paused;
      match call {
        case CreateVault(creation) => r := vault.Create(tx, paused, creation);
        case SetVaultConfig(id, name, openDeposits) => r := vault.SetConfig(tx, id, name, openDeposits);
        case SetRiskConfig(id, params, autonomous) => r := vault.SetRiskConfig(tx, id, params, autonomous);
        case SetAutonomousMode(id, enabled) => r := vault.SetAutonomousMode(tx, id, enabled);
        case PauseVault(id) => r := vault.SetPaused(tx, id, true);
        case UnpauseVault(id) => r := vault.SetPaused(tx, id, false);
      }
    }

    method DispatchPools(tx: Tx, call: PoolCall) returns (r: Response<nat>)
      requires Wired()
      modifies engine.vault, engine.vault.receipts, engine.vault.ledger
      ensures Agrees(PoolsExecuted(old(View()), tx, call), r, engine.vault.Funds())
    {
      var vault := engine.vault;
      var paused := engine.admin.paused;
      match call {
        case DepositStx(id, amount) => r := vault.DepositStx(tx, paused, id, amount);
        case DepositSbtc(id, amount, token, accepts) => r := vault.DepositSbtc(tx, paused, id, amount, token, accepts);
        case RedeemStx(id, shares) => r := vault.RedeemStx(tx, id, shares);
        case RedeemSbtc(id, shares, token, accepts) => r := vault.RedeemSbtc(tx, id, shares, token, accepts);
        case ExecuteRebalance(pool, strategy, amount, strategyCall) =>
          var registered := if strategy in engine.registry.strategies
                            then Some(engine.registry.strategies[strategy].strategyContract) else None;
          r := vault.ExecuteRebalance(tx.caller, IsMainnetChain(tx) && engine.guard.armed, registered,
                                      pool, strategy, amount, strategyCall);
      }
    }
  }
}
