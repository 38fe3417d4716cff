/** contracts/strategy-registry-v6.clar */
module StrategyRegistry {
  import opened Clarity

  datatype Strategy = Strategy(
    name: string, strategyContract: Principal, asset: Asset, active: bool, maxAllocationBps: nat, registeredAt: nat)

  datatype State = State(nextStrategyId: nat, strategies: map<nat, Strategy>)

  predicate IsStrategyActive(s: State, id: nat) {
    id == 0 || (id in s.strategies && s.strategies[id].active)
  }

  function StrategyAsset(s: State, id: nat): Option<Asset> {
    if id in s.strategies then Some(s.strategies[id].asset) else None
  }

  function StrategyContract(s: State, id: nat): Option<Principal> {
    if id in s.strategies then Some(s.strategies[id].strategyContract) else None
  }

  function MaxAllocationBps(s: State, id: nat): nat {
    if id == 0 then BPS else if id in s.strategies then s.strategies[id].maxAllocationBps else 0
  }

  datatype Call =
    | RegisterStrategy(name: string, strategyContract: Principal, asset: Asset, maxAllocationBps: nat)
    | ActivateStrategy(id: nat)
    | DeactivateStrategy(id: nat)

  function Executed(s: State, tx: Tx, admin: Principal, call: Call): Response<(State, nat)> {
    match call
    case RegisterStrategy(name, strategyContract, asset, maxBps) =>
      var id := s.nextStrategyId;
      :- Asserts(tx.sender == admin, 400);
      :- Asserts(IsValidAsset(asset), 404);
      :- Asserts(0 < maxBps <= BPS, 403);
      var next :- Add(id, 1);
      Ok((State(next, s.strategies[id := Strategy(name, strategyContract, asset, false, maxBps, tx.height)]), id))
    case ActivateStrategy(id) =>
      var entry :- Unwrap(Find(s.strategies, id), 402);
      :- Asserts(tx.sender == admin, 400);
      Ok((s.(strategies := s.strategies[id := entry.(active := true)]), TRUE))
    case DeactivateStrategy(id) =>
      var entry :- Unwrap(Find(s.strategies, id), 402);
      :- Asserts(tx.sender == admin, 400);
      Ok((s.(strategies := s.strategies[id := entry.(active := false)]), TRUE))
  }

  /** Ids are handed out from 1 upward without gaps, and every cap is a positive
      share of at most 100%. */
  ghost predicate Valid(s: State) {
    && s.nextStrategyId >= 1
    && (forall id :: id in s.strategies <==> 1 <= id < s.nextStrategyId)
    && (forall id :: id in s.strategies ==> 0 < s.strategies[id].maxAllocationBps <= BPS)
  }

  lemma ExecutedKeepsValid(s: State, tx: Tx, admin: Principal, call: Call)
    requires Valid(s) && Executed(s, tx, admin, call).Ok?
    ensures Valid(Executed(s, tx, admin, call).value.0)
  {
  }

  class Contract {
    var nextStrategyId: nat
    var strategies: map<nat, Strategy>

    ghost function View(): State
      reads this
    {
      State(nextStrategyId, strategies)
    }

    constructor ()
      ensures View() == State(1, map[])
    {
      nextStrategyId, strategies := 1, map[];
    }

    method Register(tx: Tx, admin: Principal, name: string, strategyContract: Principal, asset: Asset, maxBps: nat)
      returns (r: Response<nat>)
      modifies this
      ensures Agrees(Executed(old(View()), tx, admin, RegisterStrategy(name, strategyContract, asset, maxBps)), r, View())
    {
      var id := nextStrategyId;
      if tx.sender != admin { return Err(400); }
      if !IsValidAsset(asset) { return Err(404); }
      if maxBps == 0 || BPS < maxBps { return Err(403); }
      strategies := strategies[id := Strategy(name, strategyContract, asset, false, maxBps, tx.height)];
      nextStrategyId :- Add(id, 1);
      return Ok(id);
    }

    method SetActive(tx: Tx, admin: Principal, id: nat, active: bool) returns (r: Response<nat>)
      modifies this
      ensures Agrees(Executed(old(View()), tx, admin, if active then ActivateStrategy(id) else DeactivateStrategy(id)), r, View())
    {
      if id !in strategies { return Err(402); }
      if tx.sender != admin { return Err(400); }
      strategies := strategies[id := strategies[id].(active := active)];
      return Ok(TRUE);
    }

    /** The runtime's undo. */
    method Assign(s: State)
      modifies this
      ensures View() == s
    {
      nextStrategyId, strategies := s.nextStrategyId, s.strategies;
    }
  }
}
