/** contracts/risk-guard-v7.clar: limits, intent validation, nonces, cooldown and
    the mainnet execution gate. */
module RiskGuard {
  import opened Clarity

  datatype Params = Params(
    maxExposureBps: nat, maxStxTx: nat, maxSbtcTx: nat, maxSlippageBps: nat, minIdleBps: nat, cooldown: nat)

  datatype Config = Config(params: Params, autonomous: bool, lastNonce: nat, lastHeight: nat) {
    function MaxTxFor(asset: Asset): nat {
      if asset == STX then params.maxStxTx else params.maxSbtcTx
    }
  }

  datatype State = State(
    maxSlippageBps: nat, maxExposureBps: nat, minCooldown: nat, minLiquidityBps: nat,
    approvedSbtc: Option<Principal>, armed: bool, configs: map<nat, Config>)

  const INITIAL := State(1000, 5000, 1, 500, None, false, map[])

  predicate IsExecutionEnabled(s: State, tx: Tx) {
    IsMainnetChain(tx) && s.armed
  }

  predicate ParamsValid(s: State, p: Params) {
    && p.maxExposureBps > 0
    && p.maxExposureBps <= s.maxExposureBps
    && p.maxSlippageBps > 0
    && p.maxSlippageBps <= s.maxSlippageBps
    && p.minIdleBps >= s.minLiquidityBps
    && p.minIdleBps <= BPS
    && p.cooldown >= s.minCooldown
    && p.maxStxTx > 0
    && p.maxSbtcTx > 0
  }

  function AssetApproved(s: State, tx: Tx, admin: Principal, asset: Principal): Response<(State, nat)> {
    if tx.sender != admin then Err(300)
    else
      Ok((s.(approvedSbtc := Some(asset)), TRUE))
  }

  function LimitsSet(s: State, tx: Tx, admin: Principal, slippage: nat, exposure: nat, cooldown: nat, liquidity: nat): Response<(State, nat)> {
    if tx.sender != admin then Err(300)
    else
      :- Asserts(0 < slippage <= BPS, 317);
      :- Asserts(0 < exposure <= BPS, 317);
      :- Asserts(liquidity <= BPS, 317);
      Ok((s.(maxSlippageBps := slippage, maxExposureBps := exposure, minCooldown := cooldown, minLiquidityBps := liquidity), TRUE))
  }

  function ArmedSet(s: State, tx: Tx, admin: Principal, armed: bool): Response<(State, nat)> {
    if tx.sender != admin then Err(300)
    else
      :- Asserts(IsMainnetChain(tx), 321);
      Ok((s.(armed := armed), TRUE))
  }

  function ConfigInitialised(s: State, caller: Principal, vaultId: nat, p: Params, autonomous: bool): Response<(State, nat)> {
    if caller != VaultContract then Err(301)
    else
      :- Asserts(vaultId !in s.configs, 305);
      :- Asserts(ParamsValid(s, p), 317);
      Ok((s.(configs := s.configs[vaultId := Config(p, autonomous, 0, 0)]), TRUE))
  }

  function ConfigReplaced(s: State, caller: Principal, vaultId: nat, p: Params, autonomous: bool): Response<(State, nat)> {
    var existing :- Unwrap(Find(s.configs, vaultId), 304);
    :- Asserts(caller == VaultContract, 301);
    :- Asserts(ParamsValid(s, p), 317);
    Ok((s.(configs := s.configs[vaultId := existing.(params := p, autonomous := autonomous)]), TRUE))
  }

  function AutonomySet(s: State, caller: Principal, vaultId: nat, enabled: bool): Response<(State, nat)> {
    var existing :- Unwrap(Find(s.configs, vaultId), 304);
    :- Asserts(caller == VaultContract, 301);
    Ok((s.(configs := s.configs[vaultId := existing.(autonomous := enabled)]), TRUE))
  }

  /** The numbers the caller of check-intent read for one intent. */
  datatype Reading = Reading(idle: nat, total: nat, allocation: nat, protocolCapBps: nat)

  datatype Request = Request(
    vault: nat, asset: Asset, amount: nat, slippageBps: nat, nonce: nat, deadline: nat, callerIsOwner: bool)

  /** check-intent; its only answer besides an error is `(ok true)`. */
  function CheckIntent(s: State, protocolPaused: bool, height: nat, q: Request, m: Reading): Response<nat> {
    var cfg :- Unwrap(Find(s.configs, q.vault), 304);
    :- Asserts(IsValidAsset(q.asset), 319);
    :- Asserts(!protocolPaused, 303);
    :- Asserts(q.callerIsOwner || cfg.autonomous, 306);
    :- Asserts(q.deadline >= height, 307);
    :- Asserts(q.nonce > cfg.lastNonce, 308);
    var _ :- CooldownPassed(cfg, height);
    :- Asserts(q.amount > 0, 310);
    :- Asserts(q.amount <= cfg.MaxTxFor(q.asset), 311);
    :- Asserts(q.amount <= m.idle, 315);
    :- Asserts(m.total > 0, 317);
    :- Asserts(q.slippageBps <= cfg.params.maxSlippageBps, 314);
    var newAllocation :- Add(m.allocation, q.amount);
    var allocationScaled :- Mul(newAllocation, BPS);
    var idleScaled :- Mul(m.idle - q.amount, BPS);
    var allocationBps := Div(allocationScaled, m.total);
    var idleBps := Div(idleScaled, m.total);
    :- Asserts(allocationBps <= cfg.params.maxExposureBps, 312);
    :- Asserts(allocationBps <= m.protocolCapBps, 313);
    :- Asserts(idleBps >= cfg.params.minIdleBps, 316);
    Ok(TRUE)
  }

  function CooldownPassed(cfg: Config, height: nat): Response<nat> {
    if cfg.lastHeight == 0 then Ok(TRUE)
    else
      var ready :- Add(cfg.lastHeight, cfg.params.cooldown);
      :- Asserts(height >= ready, 309);
      Ok(TRUE)
  }

  function IntentRecorded(s: State, protocolPaused: bool, tx: Tx, caller: Principal, q: Request, m: Reading): Response<(State, nat)> {
    var cfg :- Unwrap(Find(s.configs, q.vault), 304);
    :- Asserts(caller == EngineContract, 302);
    var _ :- CheckIntent(s, protocolPaused, tx.height, q, m);
    :- Asserts(IsExecutionEnabled(s, tx), 320);
    Ok((s.(configs := s.configs[q.vault := cfg.(lastNonce := q.nonce, lastHeight := tx.height)]), TRUE))
  }

  datatype Call =
    | SetApprovedSbtcAsset(asset: Principal)
    | SetProtocolLimits(maxSlippageBps: nat, maxExposureBps: nat, minCooldown: nat, minLiquidityBps: nat)
    | SetMainnetExecutionArmed(armed: bool)
    | InitVaultConfig(vault: nat, params: Params, autonomous: bool)
    | SetVaultRiskConfig(vault: nat, params: Params, autonomous: bool)
    | SetAutonomousEnabled(vault: nat, enabled: bool)
    | ValidateAndRecordIntent(request: Request, reading: Reading)

  function Executed(s: State, tx: Tx, admin: Principal, protocolPaused: bool, call: Call): Response<(State, nat)> {
    match call
    case SetApprovedSbtcAsset(asset) => AssetApproved(s, tx, admin, asset)
    case SetProtocolLimits(slippage, exposure, cooldown, liquidity) => LimitsSet(s, tx, admin, slippage, exposure, cooldown, liquidity)
    case SetMainnetExecutionArmed(armed) => ArmedSet(s, tx, admin, armed)
    case InitVaultConfig(vault, params, autonomous) => ConfigInitialised(s, tx.caller, vault, params, autonomous)
    case SetVaultRiskConfig(vault, params, autonomous) => ConfigReplaced(s, tx.caller, vault, params, autonomous)
    case SetAutonomousEnabled(vault, enabled) => AutonomySet(s, tx.caller, vault, enabled)
    case ValidateAndRecordIntent(q, m) => IntentRecorded(s, protocolPaused, tx, tx.caller, q, m)
  }

  /** Every limit that is a share is a share: at most 10000 basis points. */
  ghost predicate Valid(s: State) {
    && 0 < s.maxExposureBps <= BPS && 0 < s.maxSlippageBps <= BPS && s.minLiquidityBps <= BPS
    && forall v :: v in s.configs ==>
         var p := s.configs[v].params;
         p.maxExposureBps <= BPS && p.maxSlippageBps <= BPS && p.minIdleBps <= BPS
  }

  class Contract {
    var maxSlippageBps: nat
    var maxExposureBps: nat
    var minCooldown: nat
    var minLiquidityBps: nat
    var approvedSbtc: Option<Principal>
    var armed: bool
    var configs: map<nat, Config>

    ghost function View(): State
      reads this
    {
      State(maxSlippageBps, maxExposureBps, minCooldown, minLiquidityBps, approvedSbtc, armed, configs)
    }

    constructor ()
      ensures View() == INITIAL
    {
      maxSlippageBps, maxExposureBps, minCooldown, minLiquidityBps := 1000, 5000, 1, 500;
      approvedSbtc, armed, configs := None, false, map[];
    }

    method ApproveSbtcAsset(tx: Tx, admin: Principal, asset: Principal) returns (r: Response<nat>)
      modifies this
      ensures Agrees(AssetApproved(old(View()), tx, admin, asset), r, View())
    {
      if tx.sender != admin { return Err(300); }
      approvedSbtc := Some(asset);
      return Ok(TRUE);
    }

    method SetLimits(tx: Tx, admin: Principal, slippage: nat, exposure: nat, cooldown: nat, liquidity: nat)
      returns (r: Response<nat>)
      modifies this
      ensures Agrees(LimitsSet(old(View()), tx, admin, slippage, exposure, cooldown, liquidity), r, View())
    {
      if tx.sender != admin { return Err(300); }
      if slippage == 0 || slippage > BPS { return Err(317); }
      if exposure == 0 || exposure > BPS { return Err(317); }
      if liquidity > BPS { return Err(317); }
      maxSlippageBps := slippage;
      maxExposureBps := exposure;
      minCooldown := cooldown;
      minLiquidityBps := liquidity;
      return Ok(TRUE);
    }

    method SetArmed(tx: Tx, admin: Principal, arm: bool) returns (r: Response<nat>)
      modifies this
      ensures Agrees(ArmedSet(old(View()), tx, admin, arm), r, View())
    {
      if tx.sender != admin { return Err(300); }
      if !IsMainnetChain(tx) { return Err(321); }
      armed := arm;
      return Ok(TRUE);
    }

    method AreParamsValid(p: Params) returns (ok: bool)
      ensures ok == ParamsValid(View(), p)
    {
      ok := && 0 < p.maxExposureBps <= maxExposureBps
            && 0 < p.maxSlippageBps <= maxSlippageBps
            && minLiquidityBps <= p.minIdleBps <= BPS
            && minCooldown <= p.cooldown
            && p.maxStxTx > 0 && p.maxSbtcTx > 0;
    }

    method InitConfig(caller: Principal, vaultId: nat, p: Params, autonomous: bool) returns (r: Response<nat>)
      modifies this
      ensures Agrees(ConfigInitialised(old(View()), caller, vaultId, p, autonomous), r, View())
    {
      if caller != VaultContract { return Err(301); }
      if vaultId in configs { return Err(305); }
      var valid := AreParamsValid(p);
      if !valid { return Err(317); }
      configs := configs[vaultId := Config(p, autonomous, 0, 0)];
      return Ok(TRUE);
    }

    method ReplaceConfig(caller: Principal, vaultId: nat, p: Params, autonomous: bool) returns (r: Response<nat>)
      modifies this
      ensures Agrees(ConfigReplaced(old(View()), caller, vaultId, p, autonomous), r, View())
    {
      if vaultId !in configs { return Err(304); }
      if caller != VaultContract { return Err(301); }
      var valid := AreParamsValid(p);
      if !valid { return Err(317); }
      configs := configs[vaultId := configs[vaultId].(params := p, autonomous := autonomous)];
      return Ok(TRUE);
    }

    method SetAutonomy(caller: Principal, vaultId: nat, enabled: bool) returns (r: Response<nat>)
      modifies this
      ensures Agrees(AutonomySet(old(View()), caller, vaultId, enabled), r, View())
    {
      if vaultId !in configs { return Err(304); }
      if caller != VaultContract { return Err(301); }
      configs := configs[vaultId := configs[vaultId].(autonomous := enabled)];
      return Ok(TRUE);
    }

    /** check-intent, reading the limits in place. */
    method Check(paused: bool, height: nat, q: Request, m: Reading) returns (r: Response<nat>)
      ensures r == CheckIntent(View(), paused, height, q, m)
    {
      if q.vault !in configs { return Err(304); }
      var cfg := configs[q.vault];
      if !IsValidAsset(q.asset) { return Err(319); }
      if paused { return Err(303); }
      if !q.callerIsOwner && !cfg.autonomous { return Err(306); }
      if q.deadline < height { return Err(307); }
      if q.nonce <= cfg.lastNonce { return Err(308); }
      if cfg.lastHeight != 0 {
        var ready :- Add(cfg.lastHeight, cfg.params.cooldown);
        if height < ready { return Err(309); }
      }
      if q.amount == 0 { return Err(310); }
      if q.amount > cfg.MaxTxFor(q.asset) { return Err(311); }
      if q.amount > m.idle { return Err(315); }
      if m.total == 0 { return Err(317); }
      if q.slippageBps > cfg.params.maxSlippageBps { return Err(314); }
      var newAllocation :- Add(m.allocation, q.amount);
      var allocationScaled :- Mul(newAllocation, BPS);
      var idleScaled :- Mul(m.idle - q.amount, BPS);
      var allocationBps := Div(allocationScaled, m.total);
      var idleBps := Div(idleScaled, m.total);
      if allocationBps > cfg.params.maxExposureBps { return Err(312); }
      if allocationBps > m.protocolCapBps { return Err(313); }
      if idleBps < cfg.params.minIdleBps { return Err(316); }
      return Ok(TRUE);
    }

    method RecordIntent(tx: Tx, caller: Principal, paused: bool, q: Request, m: Reading) returns (r: Response<nat>)
      modifies this
      ensures Agrees(IntentRecorded(old(View()), paused, tx, caller, q, m), r, View())
    {
      if q.vault !in configs { return Err(304); }
      if caller != EngineContract { return Err(302); }
      var _ :- Check(paused, tx.height, q, m);
      if !(IsMainnetChain(tx) && armed) { return Err(320); }
      configs := configs[q.vault := configs[q.vault].(lastNonce := q.nonce, lastHeight := tx.height)];
      return Ok(TRUE);
    }

    /** The runtime's undo. */
    method Assign(s: State)
      modifies this
      ensures View() == s
    {
      maxSlippageBps, maxExposureBps, minCooldown, minLiquidityBps :=
        s.maxSlippageBps, s.maxExposureBps, s.minCooldown, s.minLiquidityBps;
      approvedSbtc, armed, configs := s.approvedSbtc, s.armed, s.configs;
    }
  }
}
