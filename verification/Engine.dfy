/** contracts/execution-engine-v7.clar: the evaluate/submit pair. */
module Engine {
  import opened Clarity
  import AgentRegistry
  import ProtocolAdmin
  import RiskGuard
  import StrategyRegistry
  import Vault

  /** The state of every contract, and the real token holdings. */
  datatype World = World(
    admin: ProtocolAdmin.State,
    agents: AgentRegistry.State,
    registry: StrategyRegistry.State,
    guard: RiskGuard.State,
    funds: Vault.Treasury)

  datatype Intent = Intent(
    vault: nat, strategy: nat, asset: Asset, amount: nat, slippageBps: nat, nonce: nat, deadline: nat)
  {
    function Pool(): PoolKey {
      PoolKey(vault, asset)
    }
  }

  /** What the engine reads for check-intent. */
  function ReadingOf(w: World, i: Intent): RiskGuard.Reading {
    RiskGuard.Reading(w.funds.vault.IdleOf(i.Pool()), w.funds.vault.TotalOf(i.Pool()),
                      w.funds.vault.AllocationOf(i.Pool(), i.strategy),
                      StrategyRegistry.MaxAllocationBps(w.registry, i.strategy))
  }

  function RequestOf(i: Intent, callerIsOwner: bool): RiskGuard.Request {
    RiskGuard.Request(i.vault, i.asset, i.amount, i.slippageBps, i.nonce, i.deadline, callerIsOwner)
  }

  /** evaluate: whether the caller is the vault's owner, when every check passes. */
  function Evaluate(w: World, tx: Tx, i: Intent): Response<bool> {
    var vault :- Unwrap(Find(w.funds.vault.vaults, i.vault), 200);
    var callerIsOwner := tx.sender == vault.owner;
    :- Asserts(i.strategy > 0, 203);
    :- Asserts(IsValidAsset(i.asset), 204);
    :- Asserts(Vault.SupportsAsset(w.funds.vault, i.Pool()), 207);
    :- Asserts(!vault.paused, 206);
    :- Asserts(callerIsOwner || AgentRegistry.IsAuthorizedExecutor(w.agents, tx.sender), 201);
    :- Asserts(StrategyRegistry.IsStrategyActive(w.registry, i.strategy), 202);
    :- Asserts(Some(i.asset) == StrategyRegistry.StrategyAsset(w.registry, i.strategy), 205);
    var _ :- RiskGuard.CheckIntent(w.guard, w.admin.paused, tx.height, RequestOf(i, callerIsOwner), ReadingOf(w, i));
    Ok(callerIsOwner)
  }

  function Submitted(w: World, tx: Tx, i: Intent, call: Vault.StrategyCall): Response<(World, nat)> {
    var callerIsOwner :- Evaluate(w, tx, i);
    :- Asserts(RiskGuard.IsExecutionEnabled(w.guard, tx), 208);
    var (guard, _) :- RiskGuard.IntentRecorded(w.guard, w.admin.paused, tx, EngineContract,
                                               RequestOf(i, callerIsOwner), ReadingOf(w, i));
    var (funds, _) :- Vault.Rebalanced(w.funds, RiskGuard.IsExecutionEnabled(guard, tx),
                                       StrategyRegistry.StrategyContract(w.registry, i.strategy),
                                       EngineContract, i.Pool(), i.strategy, i.amount, call);
    Ok((w.(guard := guard, funds := funds), TRUE))
  }

  /** The engine holds no state of its own; it calls the other contracts. */
  class Contract {
    const admin: ProtocolAdmin.Contract
    const agents: AgentRegistry.Contract
    const registry: StrategyRegistry.Contract
    const guard: RiskGuard.Contract
    const vault: Vault.Contract

    ghost predicate Wired() {
      && vault.guard == guard
    }

    ghost function Contracts(): set<object> {
      {admin, agents, registry, guard, vault, vault.receipts, vault.ledger}
    }

    ghost function View(): World
      reads Contracts()
    {
      World(admin.View(), agents.View(), registry.View(), guard.View(), vault.Funds())
    }

    constructor (admin: ProtocolAdmin.Contract, agents: AgentRegistry.Contract, registry: StrategyRegistry.Contract,
                 vault: Vault.Contract)
      ensures Wired()
      ensures this.admin == admin && this.agents == agents && this.registry == registry && this.vault == vault
    {
      this.admin, this.agents, this.registry := admin, agents, registry;
      this.guard, this.vault := vault.guard, vault;
    }

    /** evaluate-rebalance-intent, and the first half of submit: reads only. */
    method EvaluateIntent(tx: Tx, i: Intent) returns (r: Response<bool>)
      requires Wired()
      ensures r == Evaluate(View(), tx, i)
    {
      if i.vault !in vault.vaults { return Err(200); }
      var info := vault.vaults[i.vault];
      var callerIsOwner := tx.sender == info.owner;
      if i.strategy == 0 { return Err(203); }
      if !IsValidAsset(i.asset) { return Err(204); }
      if !Vault.AssetInMode(info.assets, i.asset) { return Err(207); }
      if info.paused { return Err(206); }
      var executor := tx.sender in agents.executors && agents.executors[tx.sender].active;
      if !callerIsOwner && !executor { return Err(201); }
      if !(i.strategy in registry.strategies && registry.strategies[i.strategy].active) { return Err(202); }
      if registry.strategies[i.strategy].asset != i.asset { return Err(205); }
      var reading := Read(i);
      var answer := guard.Check(admin.paused, tx.height, RequestOf(i, callerIsOwner), reading);
      return if answer.Ok? then Ok(callerIsOwner) else answer.PropagateFailure();
    }

    method Read(i: Intent) returns (reading: RiskGuard.Reading)
      ensures reading == ReadingOf(View(), i)
    {
      var pool := i.Pool();
      var cap := if i.strategy == 0 then BPS
                 else if i.strategy in registry.strategies then registry.strategies[i.strategy].maxAllocationBps else 0;
      reading := RiskGuard.Reading(Lookup(vault.idle, pool), Lookup(vault.total, pool),
                                   Lookup(vault.allocations, AllocationKey(pool, i.strategy)), cap);
    }

    /** submit-rebalance-intent. */
    method Submit(tx: Tx, i: Intent, call: Vault.StrategyCall) returns (r: Response<nat>)
      requires Wired()
      modifies guard, vault, vault.ledger
      ensures Agrees(Submitted(old(View()), tx, i, call), r, View())
    {
      hide Evaluate, RiskGuard.IntentRecorded, Vault.Rebalanced;
      var callerIsOwner :- EvaluateIntent(tx, i);
      if !(IsMainnetChain(tx) && guard.armed) { return Err(208); }
      var reading := Read(i);
      var _ :- guard.RecordIntent(tx, EngineContract, admin.paused, RequestOf(i, callerIsOwner), reading);
      var registered := if i.strategy in registry.strategies
                        then Some(registry.strategies[i.strategy].strategyContract) else None;
      var _ :- vault.ExecuteRebalance(EngineContract, IsMainnetChain(tx) && guard.armed, registered,
                                      i.Pool(), i.strategy, i.amount, call);
      return Ok(TRUE);
    }
  }
}
