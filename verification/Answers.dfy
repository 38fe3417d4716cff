/** What every call answers, in every state, written out from the fields of the state
    alone: which check fails first and with which code, what overflows, and what comes
    back. The contracts' own predicates and constants are not used here. */
module Answers {
  import opened Clarity
  import opened Engine
  import opened Protocol
  import AgentRegistry
  import Ledger
  import Pricing
  import ProtocolAdmin
  import ReceiptToken
  import RiskGuard
  import StrategyRegistry
  import Vault

  // ---- Registries and settings ----

  function AdminAnswer(w: World, tx: Tx, call: ProtocolAdmin.Call): Response<nat> {
    match call
    case ProposeAdmin(newAdmin) =>
      if tx.sender != w.admin.admin then Err(600) else if newAdmin == w.admin.admin then Err(604) else Ok(1)
    case AcceptAdmin =>
      if w.admin.pendingAdmin == None then Err(601) else if w.admin.pendingAdmin != Some(tx.sender) then Err(600) else Ok(1)
    case PauseProtocol =>
      if tx.sender != w.admin.admin then Err(600) else if w.admin.paused then Err(602) else Ok(1)
    case UnpauseProtocol =>
      if tx.sender != w.admin.admin then Err(600) else if !w.admin.paused then Err(603) else Ok(1)
  }

  function AgentsAnswer(w: World, tx: Tx, call: AgentRegistry.Call): Response<nat> {
    match call
    case RegisterExecutor(executor, _) =>
      if tx.sender != w.admin.admin then Err(500) else if executor in w.agents.executors then Err(501) else Ok(1)
    case RevokeExecutor(executor) =>
      if executor !in w.agents.executors then Err(502)
      else if tx.sender != w.admin.admin then Err(500)
      else if !w.agents.executors[executor].active then Err(503)
      else Ok(1)
    case ReactivateExecutor(executor) =>
      if executor !in w.agents.executors then Err(502)
      else if tx.sender != w.admin.admin then Err(500)
      else if w.agents.executors[executor].active then Err(503)
      else Ok(1)
  }

  function RegistryAnswer(w: World, tx: Tx, call: StrategyRegistry.Call): Response<nat> {
    match call
    case RegisterStrategy(_, _, asset, maxBps) =>
      if tx.sender != w.admin.admin then Err(400)
      else if asset != STX && asset != SBTC then Err(404)
      else if maxBps == 0 || maxBps > 10000 then Err(403)
      else if w.registry.nextStrategyId >= UINT_MAX then Abort
      else Ok(w.registry.nextStrategyId)
    case ActivateStrategy(id) =>
      if id !in w.registry.strategies then Err(402) else if tx.sender != w.admin.admin then Err(400) else Ok(1)
    case DeactivateStrategy(id) =>
      if id !in w.registry.strategies then Err(402) else if tx.sender != w.admin.admin then Err(400) else Ok(1)
  }

  /** What is wrong with the parameters under the ceilings of now. */
  predicate BadParams(g: RiskGuard.State, p: RiskGuard.Params) {
    || p.maxExposureBps == 0 || p.maxExposureBps > g.maxExposureBps
    || p.maxSlippageBps == 0 || p.maxSlippageBps > g.maxSlippageBps
    || p.minIdleBps < g.minLiquidityBps || p.minIdleBps > 10000
    || p.cooldown < g.minCooldown
    || p.maxStxTx == 0 || p.maxSbtcTx == 0
  }

  function GuardAnswer(w: World, tx: Tx, call: RiskGuard.Call): Response<nat> {
    match call
    case SetApprovedSbtcAsset(_) => if tx.sender != w.admin.admin then Err(300) else Ok(1)
    case SetProtocolLimits(slippage, exposure, _, liquidity) =>
      if tx.sender != w.admin.admin then Err(300)
      else if slippage == 0 || slippage > 10000 || exposure == 0 || exposure > 10000 || liquidity > 10000 then Err(317)
      else Ok(1)
    case SetMainnetExecutionArmed(_) =>
      if tx.sender != w.admin.admin then Err(300) else if tx.chainId != 1 then Err(321) else Ok(1)
    case InitVaultConfig(vault, p, _) =>
      if tx.caller != VaultContract then Err(301)
      else if vault in w.guard.configs then Err(305)
      else if BadParams(w.guard, p) then Err(317)
      else Ok(1)
    case SetVaultRiskConfig(vault, p, _) =>
      if vault !in w.guard.configs then Err(304)
      else if tx.caller != VaultContract then Err(301)
      else if BadParams(w.guard, p) then Err(317)
      else Ok(1)
    case SetAutonomousEnabled(vault, _) =>
      if vault !in w.guard.configs then Err(304) else if tx.caller != VaultContract then Err(301) else Ok(1)
    case ValidateAndRecordIntent(q, m) =>
      if q.vault !in w.guard.configs then Err(304)
      else if tx.caller != EngineContract then Err(302)
      else
        var check := CheckAnswer(w.guard, w.admin.paused, tx.height, q, m);
        if !check.Ok? then check
        else if tx.chainId != 1 || !w.guard.armed then Err(320)
        else Ok(1)
  }

  function ReceiptsAnswer(w: World, tx: Tx, call: ReceiptToken.Call): Response<nat> {
    match call
    case Mint(pool, amount, recipient) =>
      if tx.caller != VaultContract then Err(700)
      else if pool.asset != STX && pool.asset != SBTC then Err(701)
      else if amount == 0 then Err(702)
      else if w.funds.receipts.BalanceOf(pool, recipient) + amount > UINT_MAX then Abort
      else if w.funds.receipts.SupplyOf(pool) + amount > UINT_MAX then Abort
      else Ok(1)
    case Burn(pool, amount, holder) =>
      if tx.caller != VaultContract then Err(700)
      else if pool.asset != STX && pool.asset != SBTC then Err(701)
      else if amount == 0 then Err(702)
      else if w.funds.receipts.BalanceOf(pool, holder) < amount then Err(703)
      else if w.funds.receipts.SupplyOf(pool) < amount then Abort
      else Ok(1)
    case Transfer(_, _, _, _) => Err(704)
  }

  /** The checks every function of an owner begins with. */
  function OwnerAnswer(w: World, tx: Tx, id: nat): Response<nat> {
    if id !in w.funds.vault.vaults then Err(101) else if tx.sender != w.funds.vault.vaults[id].owner then Err(100) else Ok(1)
  }

  function VaultAnswer(w: World, tx: Tx, call: VaultCall): Response<nat> {
    match call
    case CreateVault(c) =>
      var id := w.funds.vault.nextVaultId;
      if w.admin.paused then Err(102)
      else if c.name == "" then Err(119)
      else if c.purpose > 5 then Err(120)
      else if c.assets != 1 && c.assets != 2 && c.assets != 3 then Err(121)
      else if Lookup(w.funds.vault.ownerCount, tx.sender) >= UINT_MAX || id >= UINT_MAX then Abort
      else if id in w.guard.configs then Err(305)
      else if BadParams(w.guard, c.params) then Err(317)
      else Ok(id)
    case SetVaultConfig(id, name, _) =>
      var owner := OwnerAnswer(w, tx, id);
      if !owner.Ok? then owner else if name == "" then Err(119) else Ok(1)
    case SetRiskConfig(id, p, _) =>
      var owner := OwnerAnswer(w, tx, id);
      if !owner.Ok? then owner
      else if id !in w.guard.configs then Err(304)
      else if BadParams(w.guard, p) then Err(317)
      else Ok(1)
    case SetAutonomousMode(id, _) =>
      var owner := OwnerAnswer(w, tx, id);
      if !owner.Ok? then owner else if id !in w.guard.configs then Err(304) else Ok(1)
    case PauseVault(id) =>
      var owner := OwnerAnswer(w, tx, id);
      if !owner.Ok? then owner else if w.funds.vault.vaults[id].paused then Err(122) else Ok(1)
    case UnpauseVault(id) =>
      var owner := OwnerAnswer(w, tx, id);
      if !owner.Ok? then owner else if !w.funds.vault.vaults[id].paused then Err(123) else Ok(1)
  }

  // ---- Deposits and redemptions ----

  /** The shares of a deposit into a pool, with the least first deposit `least`. */
  function SharesAnswer(supply: nat, total: nat, amount: nat, least: nat): Response<nat> {
    if amount == 0 then Err(104)
    else if supply == 0 then
      if total > 0 then Err(116) else if amount < least then Err(114) else Ok(amount)
    else if total == 0 then Err(116)
    else if amount * supply > UINT_MAX then Abort
    else if amount * supply < total then Err(115)
    else Ok(amount * supply / total)
  }

  function PayoutAnswer(supply: nat, total: nat, shares: nat): Response<nat> {
    if shares == 0 then Err(104)
    else if shares > supply then Err(117)
    else if shares * total > UINT_MAX then Abort
    else if shares * total < supply then Err(118)
    else Ok(shares * total / supply)
  }

  /** The checks of a deposit once its shares are known, up to the transfer. */
  function AccessAnswer(w: World, tx: Tx, id: nat, modes: set<nat>): Response<nat>
    requires id in w.funds.vault.vaults
  {
    var info := w.funds.vault.vaults[id];
    if info.assets !in modes then Err(111)
    else if w.admin.paused then Err(102)
    else if info.paused then Err(112)
    else if tx.sender != info.owner && !info.openDeposits then Err(113)
    else Ok(1)
  }

  /** The bookkeeping after the transfer. */
  function CreditAnswer(t: Vault.Treasury, pool: PoolKey, holder: Principal, amount: nat, shares: nat): Response<nat> {
    if Lookup(t.vault.idle, pool) + amount > UINT_MAX || Lookup(t.vault.total, pool) + amount > UINT_MAX then Abort
    else if shares == 0 then Err(702)
    else if t.receipts.BalanceOf(pool, holder) + shares > UINT_MAX || t.receipts.SupplyOf(pool) + shares > UINT_MAX then Abort
    else if Vault.Registration(holder, pool.vault) !in t.vault.holderRegistered && Lookup(t.vault.holderCount, holder) >= UINT_MAX
    then Abort
    else Ok(shares)
  }

  /** What a redemption checks between its pricing and its payout. */
  function DebitAnswer(t: Vault.Treasury, pool: PoolKey, holder: Principal, shares: nat, payout: nat): Response<nat> {
    if shares > t.receipts.BalanceOf(pool, holder) then Err(117)
    else if payout > Lookup(t.vault.idle, pool) then Err(105)
    else if shares == 0 then Err(702)
    else if shares > t.receipts.SupplyOf(pool) || payout > Lookup(t.vault.total, pool) then Abort
    else Ok(payout)
  }

  /** A deposit up to and including its transfer; Ok is the number of shares. */
  function StxPaidIn(w: World, tx: Tx, id: nat, amount: nat): Response<nat> {
    var pool := PoolKey(id, STX);
    if id !in w.funds.vault.vaults then Err(101)
    else
      var shares := SharesAnswer(w.funds.receipts.SupplyOf(pool), Lookup(w.funds.vault.total, pool), amount, 1000000);
      var access := AccessAnswer(w, tx, id, {1, 3});
      if !shares.Ok? then shares
      else if !access.Ok? then access
      else if tx.sender == VaultContract || w.funds.ledger.StxOf(tx.sender) < amount then Err(106)
      else shares
  }

  function SbtcPaidIn(w: World, tx: Tx, id: nat, amount: nat, token: Principal, accepts: bool): Response<nat> {
    var pool := PoolKey(id, SBTC);
    if id !in w.funds.vault.vaults then Err(101)
    else if w.guard.approvedSbtc == None then Err(109)
    else
      var shares := SharesAnswer(w.funds.receipts.SupplyOf(pool), Lookup(w.funds.vault.total, pool), amount, 10000);
      var access := AccessAnswer(w, tx, id, {2, 3});
      if !shares.Ok? then shares
      else if !access.Ok? then access
      else if w.guard.approvedSbtc != Some(token) then Err(103)
      else if !accepts || tx.sender == VaultContract || w.funds.ledger.TokensOf(token, tx.sender) < amount then Err(106)
      else shares
  }

  function DepositStxAnswer(w: World, tx: Tx, id: nat, amount: nat): Response<nat> {
    var paidIn := StxPaidIn(w, tx, id, amount);
    if !paidIn.Ok? then paidIn else CreditAnswer(w.funds, PoolKey(id, STX), tx.sender, amount, paidIn.value)
  }

  function DepositSbtcAnswer(w: World, tx: Tx, id: nat, amount: nat, token: Principal, accepts: bool): Response<nat> {
    var paidIn := SbtcPaidIn(w, tx, id, amount, token, accepts);
    if !paidIn.Ok? then paidIn else CreditAnswer(w.funds, PoolKey(id, SBTC), tx.sender, amount, paidIn.value)
  }

  /** A redemption up to the check of its shares; Ok is the payout. */
  function StxOwed(w: World, id: nat, shares: nat): Response<nat> {
    var pool := PoolKey(id, STX);
    if id !in w.funds.vault.vaults then Err(101)
    else
      var payout := PayoutAnswer(w.funds.receipts.SupplyOf(pool), Lookup(w.funds.vault.total, pool), shares);
      var mode := w.funds.vault.vaults[id].assets;
      if payout.Ok? && mode != 1 && mode != 3 then Err(111) else payout
  }

  function SbtcOwed(w: World, id: nat, shares: nat, token: Principal): Response<nat> {
    var pool := PoolKey(id, SBTC);
    if id !in w.funds.vault.vaults then Err(101)
    else if w.guard.approvedSbtc == None then Err(109)
    else
      var payout := PayoutAnswer(w.funds.receipts.SupplyOf(pool), Lookup(w.funds.vault.total, pool), shares);
      var mode := w.funds.vault.vaults[id].assets;
      if payout.Ok? && mode != 2 && mode != 3 then Err(111)
      else if payout.Ok? && w.guard.approvedSbtc != Some(token) then Err(103)
      else payout
  }

  function RedeemStxAnswer(w: World, tx: Tx, id: nat, shares: nat): Response<nat> {
    var owed := StxOwed(w, id, shares);
    if !owed.Ok? then owed
    else
      var debit := DebitAnswer(w.funds, PoolKey(id, STX), tx.sender, shares, owed.value);
      if !debit.Ok? then debit
      else if tx.sender == VaultContract || w.funds.ledger.StxOf(VaultContract) < owed.value then Err(106)
      else owed
  }

  function RedeemSbtcAnswer(w: World, tx: Tx, id: nat, shares: nat, token: Principal, accepts: bool): Response<nat> {
    var owed := SbtcOwed(w, id, shares, token);
    if !owed.Ok? then owed
    else
      var debit := DebitAnswer(w.funds, PoolKey(id, SBTC), tx.sender, shares, owed.value);
      if !debit.Ok? then debit
      else if !accepts || tx.sender == VaultContract || w.funds.ledger.TokensOf(token, VaultContract) < owed.value then Err(106)
      else owed
  }

  function RebalanceAnswer(w: World, tx: Tx, pool: PoolKey, strategy: nat, amount: nat, call: Vault.StrategyCall): Response<nat> {
    if tx.caller != EngineContract then Err(107)
    else if tx.chainId != 1 || !w.guard.armed then Err(124)
    else if pool.asset != STX && pool.asset != SBTC then Err(110)
    else if pool.vault !in w.funds.vault.vaults then Err(101)
    else if w.funds.vault.vaults[pool.vault].paused then Err(112)
    else if Lookup(w.funds.vault.idle, pool) < amount then Err(105)
    else if strategy !in w.registry.strategies || w.registry.strategies[strategy].strategyContract != call.strategyContract then Err(108)
    else if call.outcome == None then Err(106)
    else if Lookup(w.funds.vault.allocations, AllocationKey(pool, strategy)) + amount > UINT_MAX then Abort
    else Ok(1)
  }

  function PoolsAnswer(w: World, tx: Tx, call: PoolCall): Response<nat> {
    match call
    case DepositStx(id, amount) => DepositStxAnswer(w, tx, id, amount)
    case DepositSbtc(id, amount, token, accepts) => DepositSbtcAnswer(w, tx, id, amount, token, accepts)
    case RedeemStx(id, shares) => RedeemStxAnswer(w, tx, id, shares)
    case RedeemSbtc(id, shares, token, accepts) => RedeemSbtcAnswer(w, tx, id, shares, token, accepts)
    case ExecuteRebalance(pool, strategy, amount, strategyCall) => RebalanceAnswer(w, tx, pool, strategy, amount, strategyCall)
  }

  // ---- Intents ----

  /** check-intent. A share after flooring exceeds `cap` basis points when it is at
      least `cap + 1`, and is below `floor` when it is below it before flooring. */
  function CheckAnswer(g: RiskGuard.State, paused: bool, height: nat, q: RiskGuard.Request, m: RiskGuard.Reading): Response<nat> {
    if q.vault !in g.configs then Err(304)
    else
      var cfg := g.configs[q.vault];
      var p := cfg.params;
      if q.asset != STX && q.asset != SBTC then Err(319)
      else if paused then Err(303)
      else if !q.callerIsOwner && !cfg.autonomous then Err(306)
      else if q.deadline < height then Err(307)
      else if q.nonce <= cfg.lastNonce then Err(308)
      else if cfg.lastHeight > 0 && cfg.lastHeight + p.cooldown > UINT_MAX then Abort
      else if cfg.lastHeight > 0 && height < cfg.lastHeight + p.cooldown then Err(309)
      else if q.amount == 0 then Err(310)
      else if q.amount > (if q.asset == STX then p.maxStxTx else p.maxSbtcTx) then Err(311)
      else if q.amount > m.idle then Err(315)
      else if m.total == 0 then Err(317)
      else if q.slippageBps > p.maxSlippageBps then Err(314)
      else if (m.allocation + q.amount) * 10000 > UINT_MAX || (m.idle - q.amount) * 10000 > UINT_MAX then Abort
      else if (m.allocation + q.amount) * 10000 >= (p.maxExposureBps + 1) * m.total then Err(312)
      else if (m.allocation + q.amount) * 10000 >= (m.protocolCapBps + 1) * m.total then Err(313)
      else if (m.idle - q.amount) * 10000 < p.minIdleBps * m.total then Err(316)
      else Ok(1)
  }

  /** The engine's verdict before check-intent: whether the sender is the owner. */
  function RoutingAnswer(w: World, tx: Tx, i: Intent): Response<bool> {
    if i.vault !in w.funds.vault.vaults then Err(200)
    else
      var info := w.funds.vault.vaults[i.vault];
      if i.strategy == 0 then Err(203)
      else if i.asset != STX && i.asset != SBTC then Err(204)
      else if info.assets != 3 && info.assets != (if i.asset == STX then 1 else 2) then Err(207)
      else if info.paused then Err(206)
      else if tx.sender != info.owner && !(tx.sender in w.agents.executors && w.agents.executors[tx.sender].active) then Err(201)
      else if i.strategy !in w.registry.strategies || !w.registry.strategies[i.strategy].active then Err(202)
      else if w.registry.strategies[i.strategy].asset != i.asset then Err(205)
      else Ok(tx.sender == info.owner)
  }

  /** What the engine hands to check-intent for a routed intent. */
  function CheckOfIntent(w: World, tx: Tx, i: Intent, callerIsOwner: bool): Response<nat>
    requires i.strategy in w.registry.strategies
  {
    var pool := PoolKey(i.vault, i.asset);
    CheckAnswer(w.guard, w.admin.paused, tx.height,
                RiskGuard.Request(i.vault, i.asset, i.amount, i.slippageBps, i.nonce, i.deadline, callerIsOwner),
                RiskGuard.Reading(Lookup(w.funds.vault.idle, pool), Lookup(w.funds.vault.total, pool),
                                  Lookup(w.funds.vault.allocations, AllocationKey(pool, i.strategy)),
                                  w.registry.strategies[i.strategy].maxAllocationBps))
  }

  function EvaluateAnswer(w: World, tx: Tx, i: Intent): Response<bool> {
    var routed := RoutingAnswer(w, tx, i);
    if !routed.Ok? then routed
    else
      var check := CheckOfIntent(w, tx, i, routed.value);
      if !check.Ok? then check.PropagateFailure() else routed
  }

  function SubmitAnswer(w: World, tx: Tx, i: Intent, call: Vault.StrategyCall): Response<nat> {
    var verdict := EvaluateAnswer(w, tx, i);
    if !verdict.Ok? then verdict.PropagateFailure()
    else if tx.chainId != 1 || !w.guard.armed then Err(208)
    else if w.registry.strategies[i.strategy].strategyContract != call.strategyContract then Err(108)
    else if call.outcome == None then Err(106)
    else Ok(1)
  }

  // ---- The answers are exact ----

  lemma PricingAnswers(supply: nat, total: nat, x: nat, least: nat)
    ensures Pricing.ComputeDepositShares(supply, total, x, least) == SharesAnswer(supply, total, x, least)
    ensures Pricing.ComputeRedeemAssets(x, supply, total) == PayoutAnswer(supply, total, x)
  {
    if supply > 0 {
      FloorIsZeroIff(x * total, supply);
    }
    if total > 0 {
      FloorIsZeroIff(x * supply, total);
    }
  }

  lemma FloorIsZeroIff(x: nat, d: nat)
    requires d > 0
    ensures x / d == 0 <==> x < d
  {
    Pricing.FloorBounds(x, d);
  }

  lemma CheckAnswers(g: RiskGuard.State, paused: bool, height: nat, q: RiskGuard.Request, m: RiskGuard.Reading)
    ensures RiskGuard.CheckIntent(g, paused, height, q, m) == CheckAnswer(g, paused, height, q, m)
  {
    if q.vault in g.configs && q.amount <= m.idle && m.total > 0 {
      var p := g.configs[q.vault].params;
      Shares((m.allocation + q.amount) * 10000, m.total, p.maxExposureBps);
      Shares((m.allocation + q.amount) * 10000, m.total, m.protocolCapBps);
      Shares((m.idle - q.amount) * 10000, m.total, p.minIdleBps);
    }
  }

  lemma Shares(x: nat, d: nat, q: nat)
    requires d > 0
    ensures x / d <= q <==> x < (q + 1) * d
    ensures x / d >= q <==> x >= q * d
  {
    Pricing.FloorBounds(x, d);
    if x < (q + 1) * d {
      Pricing.FloorIsBelow(x, d, q + 1);
    } else {
      Pricing.FloorIsLargest(x, d, q + 1);
    }
    if x >= q * d {
      Pricing.FloorIsLargest(x, d, q);
    } else {
      Pricing.FloorIsBelow(x, d, q);
    }
  }

  lemma EvaluateAnswers(w: World, tx: Tx, i: Intent)
    ensures Evaluate(w, tx, i) == EvaluateAnswer(w, tx, i)
  {
    hide RiskGuard.CheckIntent, CheckAnswer;
    var routed := RoutingAnswer(w, tx, i);
    if routed.Ok? {
      CheckAnswers(w.guard, w.admin.paused, tx.height, RequestOf(i, routed.value), ReadingOf(w, i));
    }
  }

  lemma CreditAnswers(t: Vault.Treasury, pool: PoolKey, holder: Principal, amount: nat, shares: nat)
    requires pool.asset == STX || pool.asset == SBTC
    ensures AnswerOf(Vault.Credited(t, pool, holder, amount, shares)) == CreditAnswer(t, pool, holder, amount, shares)
  {
  }

  lemma DebitAnswers(t: Vault.Treasury, pool: PoolKey, holder: Principal, shares: nat, payout: nat)
    requires pool.asset == STX || pool.asset == SBTC
    ensures var r := Vault.Debited(t, pool, holder, shares, payout);
            (if r.Ok? then Ok(payout) else r.PropagateFailure()) == DebitAnswer(t, pool, holder, shares, payout)
    ensures var r := Vault.Debited(t, pool, holder, shares, payout); r.Ok? ==> r.value.ledger == t.ledger
  {
  }

  lemma AccessAnswers(w: World, tx: Tx, id: nat)
    requires id in w.funds.vault.vaults
    ensures var c := Vault.DepositAllowed(w.funds.vault.vaults[id], w.admin.paused, tx, STX);
            AccessAnswer(w, tx, id, {1, 3}) == if c.Pass? then Ok(1) else Err(c.code)
    ensures var c := Vault.DepositAllowed(w.funds.vault.vaults[id], w.admin.paused, tx, SBTC);
            AccessAnswer(w, tx, id, {2, 3}) == if c.Pass? then Ok(1) else Err(c.code)
  {
  }

  lemma ZeroIsRefused(supply: nat, total: nat, x: nat, least: nat)
    ensures SharesAnswer(supply, total, x, least).Ok? ==> x > 0
    ensures PayoutAnswer(supply, total, x).Ok? ==> x > 0 && PayoutAnswer(supply, total, x).value > 0
  {
    if supply > 0 {
      FloorIsZeroIff(x * total, supply);
    }
  }

  lemma CreditIgnoresLedger(
    t: Vault.Treasury, ledger: Ledger.State, pool: PoolKey, holder: Principal, amount: nat, shares: nat)
    ensures CreditAnswer(t.(ledger := ledger), pool, holder, amount, shares) == CreditAnswer(t, pool, holder, amount, shares)
  {
  }

  lemma StxIsPaidIn(w: World, tx: Tx, id: nat, amount: nat)
    ensures var paidIn := StxPaidIn(w, tx, id, amount);
            var r := Vault.StxDeposited(w.funds, w.admin.paused, tx, id, amount);
            var ledger := Ledger.StxMoved(w.funds.ledger, amount, tx.sender, VaultContract);
            if paidIn.Ok?
            then ledger.Some? && r == Vault.Credited(w.funds.(ledger := ledger.value), PoolKey(id, STX), tx.sender, amount, paidIn.value)
            else r == paidIn.PropagateFailure()
  {
    hide Vault.Credited, SharesAnswer, Pricing.ComputeDepositShares, AccessAnswer, Vault.DepositAllowed, Ledger.StxMoved;
    if id in w.funds.vault.vaults {
      AccessAnswers(w, tx, id);
    }
    var pool := PoolKey(id, STX);
    PricingAnswers(w.funds.receipts.SupplyOf(pool), Lookup(w.funds.vault.total, pool), amount, 1000000);
    ZeroIsRefused(w.funds.receipts.SupplyOf(pool), Lookup(w.funds.vault.total, pool), amount, 1000000);
  }

  lemma SbtcIsPaidIn(w: World, tx: Tx, id: nat, amount: nat, token: Principal, accepts: bool)
    ensures var paidIn := SbtcPaidIn(w, tx, id, amount, token, accepts);
            var r := Vault.SbtcDeposited(w.funds, w.admin.paused, w.guard.approvedSbtc, tx, id, amount, token, accepts);
            var ledger := Ledger.TokenMoved(w.funds.ledger, token, accepts, amount, tx.sender, VaultContract);
            if paidIn.Ok?
            then ledger.Some? && r == Vault.Credited(w.funds.(ledger := ledger.value), PoolKey(id, SBTC), tx.sender, amount, paidIn.value)
            else r == paidIn.PropagateFailure()
  {
    hide Vault.Credited, SharesAnswer, Pricing.ComputeDepositShares, AccessAnswer, Vault.DepositAllowed, Ledger.TokenMoved;
    if id in w.funds.vault.vaults {
      AccessAnswers(w, tx, id);
    }
    var pool := PoolKey(id, SBTC);
    PricingAnswers(w.funds.receipts.SupplyOf(pool), Lookup(w.funds.vault.total, pool), amount, 10000);
    ZeroIsRefused(w.funds.receipts.SupplyOf(pool), Lookup(w.funds.vault.total, pool), amount, 10000);
  }

  lemma DepositStxAnswers(w: World, tx: Tx, id: nat, amount: nat)
    ensures AnswerOf(Vault.StxDeposited(w.funds, w.admin.paused, tx, id, amount)) == DepositStxAnswer(w, tx, id, amount)
  {
    hide Vault.StxDeposited, Vault.Credited, CreditAnswer, StxPaidIn, Ledger.StxMoved;
    var paidIn := StxPaidIn(w, tx, id, amount);
    StxIsPaidIn(w, tx, id, amount);
    if paidIn.Ok? {
      var ledger := Ledger.StxMoved(w.funds.ledger, amount, tx.sender, VaultContract).value;
      CreditAnswers(w.funds.(ledger := ledger), PoolKey(id, STX), tx.sender, amount, paidIn.value);
      CreditIgnoresLedger(w.funds, ledger, PoolKey(id, STX), tx.sender, amount, paidIn.value);
    }
  }

  lemma DepositSbtcAnswers(w: World, tx: Tx, id: nat, amount: nat, token: Principal, accepts: bool)
    ensures AnswerOf(Vault.SbtcDeposited(w.funds, w.admin.paused, w.guard.approvedSbtc, tx, id, amount, token, accepts))
         == DepositSbtcAnswer(w, tx, id, amount, token, accepts)
  {
    hide Vault.SbtcDeposited, Vault.Credited, CreditAnswer, SbtcPaidIn, Ledger.TokenMoved;
    var paidIn := SbtcPaidIn(w, tx, id, amount, token, accepts);
    SbtcIsPaidIn(w, tx, id, amount, token, accepts);
    if paidIn.Ok? {
      var ledger := Ledger.TokenMoved(w.funds.ledger, token, accepts, amount, tx.sender, VaultContract).value;
      CreditAnswers(w.funds.(ledger := ledger), PoolKey(id, SBTC), tx.sender, amount, paidIn.value);
      CreditIgnoresLedger(w.funds, ledger, PoolKey(id, SBTC), tx.sender, amount, paidIn.value);
    }
  }

  lemma StxIsOwed(w: World, tx: Tx, id: nat, shares: nat)
    ensures var owed := StxOwed(w, id, shares);
            var r := Vault.StxRedeemed(w.funds, tx, id, shares);
            if owed.Ok? then
              var debited := Vault.Debited(w.funds, PoolKey(id, STX), tx.sender, shares, owed.value);
              if !debited.Ok? then r == debited.PropagateFailure()
              else
                var ledger := Ledger.StxMoved(debited.value.ledger, owed.value, VaultContract, tx.sender);
                r == if ledger.Some? then Ok((debited.value.(ledger := ledger.value), owed.value)) else Err(106)
            else r == owed.PropagateFailure()
    ensures StxOwed(w, id, shares).Ok? ==> StxOwed(w, id, shares).value > 0
  {
    hide Vault.Debited, PayoutAnswer, Pricing.ComputeRedeemAssets, Ledger.StxMoved;
    var pool := PoolKey(id, STX);
    PricingAnswers(w.funds.receipts.SupplyOf(pool), Lookup(w.funds.vault.total, pool), shares, 0);
    ZeroIsRefused(w.funds.receipts.SupplyOf(pool), Lookup(w.funds.vault.total, pool), shares, 0);
  }

  lemma SbtcIsOwed(w: World, tx: Tx, id: nat, shares: nat, token: Principal, accepts: bool)
    ensures var owed := SbtcOwed(w, id, shares, token);
            var r := Vault.SbtcRedeemed(w.funds, w.guard.approvedSbtc, tx, id, shares, token, accepts);
            if owed.Ok? then
              var debited := Vault.Debited(w.funds, PoolKey(id, SBTC), tx.sender, shares, owed.value);
              if !debited.Ok? then r == debited.PropagateFailure()
              else
                var ledger := Ledger.TokenMoved(debited.value.ledger, token, accepts, owed.value, VaultContract, tx.sender);
                r == if ledger.Some? then Ok((debited.value.(ledger := ledger.value), owed.value)) else Err(106)
            else r == owed.PropagateFailure()
    ensures SbtcOwed(w, id, shares, token).Ok? ==> SbtcOwed(w, id, shares, token).value > 0
  {
    hide Vault.Debited, PayoutAnswer, Pricing.ComputeRedeemAssets, Ledger.TokenMoved;
    var pool := PoolKey(id, SBTC);
    PricingAnswers(w.funds.receipts.SupplyOf(pool), Lookup(w.funds.vault.total, pool), shares, 0);
    ZeroIsRefused(w.funds.receipts.SupplyOf(pool), Lookup(w.funds.vault.total, pool), shares, 0);
  }

  lemma RedeemStxAnswers(w: World, tx: Tx, id: nat, shares: nat)
    ensures AnswerOf(Vault.StxRedeemed(w.funds, tx, id, shares)) == RedeemStxAnswer(w, tx, id, shares)
  {
    hide Vault.StxRedeemed, Vault.Debited, DebitAnswer, StxOwed, Ledger.StxMoved;
    StxIsOwed(w, tx, id, shares);
    var owed := StxOwed(w, id, shares);
    if owed.Ok? {
      DebitAnswers(w.funds, PoolKey(id, STX), tx.sender, shares, owed.value);
    }
  }

  lemma RedeemSbtcAnswers(w: World, tx: Tx, id: nat, shares: nat, token: Principal, accepts: bool)
    ensures AnswerOf(Vault.SbtcRedeemed(w.funds, w.guard.approvedSbtc, tx, id, shares, token, accepts))
         == RedeemSbtcAnswer(w, tx, id, shares, token, accepts)
  {
    hide Vault.SbtcRedeemed, Vault.Debited, DebitAnswer, SbtcOwed, Ledger.TokenMoved;
    SbtcIsOwed(w, tx, id, shares, token, accepts);
    var owed := SbtcOwed(w, id, shares, token);
    if owed.Ok? {
      DebitAnswers(w.funds, PoolKey(id, SBTC), tx.sender, shares, owed.value);
    }
  }

  lemma PoolsAnswers(w: World, tx: Tx, call: PoolCall)
    ensures AnswerOf(PoolsExecuted(w, tx, call)) == PoolsAnswer(w, tx, call)
  {
    hide Vault.StxDeposited, Vault.SbtcDeposited, Vault.StxRedeemed, Vault.SbtcRedeemed;
    hide DepositStxAnswer, DepositSbtcAnswer, RedeemStxAnswer, RedeemSbtcAnswer;
    match call
    case DepositStx(id, amount) => DepositStxAnswers(w, tx, id, amount);
    case DepositSbtc(id, amount, token, accepts) => DepositSbtcAnswers(w, tx, id, amount, token, accepts);
    case RedeemStx(id, shares) => RedeemStxAnswers(w, tx, id, shares);
    case RedeemSbtc(id, shares, token, accepts) => RedeemSbtcAnswers(w, tx, id, shares, token, accepts);
    case ExecuteRebalance(_, _, _, _) =>
  }

  lemma VaultAnswers(w: World, tx: Tx, call: VaultCall)
    ensures AnswerOf(VaultExecuted(w, tx, call)) == VaultAnswer(w, tx, call)
  {
  }

  lemma GuardAnswers(w: World, tx: Tx, call: RiskGuard.Call)
    ensures AnswerOf(RiskGuard.Executed(w.guard, tx, w.admin.admin, w.admin.paused, call)) == GuardAnswer(w, tx, call)
  {
    hide RiskGuard.CheckIntent, CheckAnswer;
    if call.ValidateAndRecordIntent? {
      CheckAnswers(w.guard, w.admin.paused, tx.height, call.request, call.reading);
    }
  }

  lemma SubmitAnswers(w: World, tx: Tx, i: Intent, call: Vault.StrategyCall)
    ensures AnswerOf(Submitted(w, tx, i, call)) == SubmitAnswer(w, tx, i, call)
  {
    hide Evaluate, EvaluateAnswer, RiskGuard.CheckIntent;
    EvaluateAnswers(w, tx, i);
    if Evaluate(w, tx, i).Ok? {
      EvaluatedIntent(w, tx, i);
    }
  }

  /** What a passing evaluation says that the layers below check again. */
  lemma EvaluatedIntent(w: World, tx: Tx, i: Intent)
    requires Evaluate(w, tx, i).Ok?
    ensures EvaluateAnswer(w, tx, i) == Evaluate(w, tx, i)
    ensures i.strategy in w.registry.strategies && i.vault in w.funds.vault.vaults && !w.funds.vault.vaults[i.vault].paused
    ensures i.asset == STX || i.asset == SBTC
    ensures RiskGuard.CheckIntent(w.guard, w.admin.paused, tx.height, RequestOf(i, Evaluate(w, tx, i).value), ReadingOf(w, i)) == Ok(1)
    ensures i.vault in w.guard.configs && i.amount <= Lookup(w.funds.vault.idle, i.Pool())
    ensures Lookup(w.funds.vault.allocations, AllocationKey(i.Pool(), i.strategy)) + i.amount <= UINT_MAX
  {
    EvaluateAnswers(w, tx, i);
    CheckAnswers(w.guard, w.admin.paused, tx.height, RequestOf(i, Evaluate(w, tx, i).value), ReadingOf(w, i));
  }

  /** The read-only functions other contracts and clients rely on. Strategy 0 stands for
      idle funds. */
  lemma ReadsAreExact(w: World, tx: Tx, who: Principal, id: nat, pool: PoolKey, x: nat)
    ensures AgentRegistry.IsAuthorizedExecutor(w.agents, who) <==> who in w.agents.executors && w.agents.executors[who].active
    ensures StrategyRegistry.IsStrategyActive(w.registry, id) <==>
              id == 0 || (id in w.registry.strategies && w.registry.strategies[id].active)
    ensures StrategyRegistry.MaxAllocationBps(w.registry, id)
         == if id == 0 then 10000 else if id in w.registry.strategies then w.registry.strategies[id].maxAllocationBps else 0
    ensures StrategyRegistry.StrategyAsset(w.registry, id)
         == if id in w.registry.strategies then Some(w.registry.strategies[id].asset) else None
    ensures StrategyRegistry.StrategyContract(w.registry, id)
         == if id in w.registry.strategies then Some(w.registry.strategies[id].strategyContract) else None
    ensures RiskGuard.IsExecutionEnabled(w.guard, tx) <==> tx.chainId == 1 && w.guard.armed
    ensures Vault.IsVaultPaused(w.funds.vault, id) <==> id in w.funds.vault.vaults && w.funds.vault.vaults[id].paused
    ensures Vault.SupportsAsset(w.funds.vault, pool) <==>
              && pool.vault in w.funds.vault.vaults
              && var mode := w.funds.vault.vaults[pool.vault].assets;
                 (pool.asset == STX && (mode == 1 || mode == 3)) || (pool.asset == SBTC && (mode == 2 || mode == 3))
    ensures Vault.PreviewDeposit(w.funds, pool, x)
         == SharesAnswer(Lookup(w.funds.receipts.supplies, pool), Lookup(w.funds.vault.total, pool), x,
                         if pool.asset == STX then 1000000 else 10000)
    ensures Vault.PreviewRedeem(w.funds, pool, x)
         == PayoutAnswer(Lookup(w.funds.receipts.supplies, pool), Lookup(w.funds.vault.total, pool), x)
  {
    hide SharesAnswer, PayoutAnswer, Pricing.ComputeDepositShares, Pricing.ComputeRedeemAssets;
    PricingAnswers(w.funds.SupplyOf(pool), w.funds.vault.TotalOf(pool), x, if pool.asset == STX then 1000000 else 10000);
  }

  function Answer(w: World, step: Step): Response<nat> {
    match step.call
    case ToAdmin(call) => AdminAnswer(w, step.tx, call)
    case ToAgents(call) => AgentsAnswer(w, step.tx, call)
    case ToRegistry(call) => RegistryAnswer(w, step.tx, call)
    case ToGuard(call) => GuardAnswer(w, step.tx, call)
    case ToReceipts(call) => ReceiptsAnswer(w, step.tx, call)
    case ToVault(call) => VaultAnswer(w, step.tx, call)
    case ToPools(call) => PoolsAnswer(w, step.tx, call)
    case ToEngine(i, strategyCall) => SubmitAnswer(w, step.tx, i, strategyCall)
    case TokenActivity(_) => Ok(1)
  }

  /** Every call of every contract, in every state, answers exactly what its fields say. */
  lemma AnswersAreExact(w: World, step: Step)
    ensures AnswerOf(Executed(w, step)) == Answer(w, step)
  {
    hide VaultExecuted, PoolsExecuted, Submitted, RiskGuard.Executed;
    hide VaultAnswer, PoolsAnswer, SubmitAnswer, GuardAnswer;
    match step.call
    case ToGuard(call) => GuardAnswers(w, step.tx, call);
    case ToVault(call) => VaultAnswers(w, step.tx, call);
    case ToPools(call) => PoolsAnswers(w, step.tx, call);
    case ToEngine(i, strategyCall) => SubmitAnswers(w, step.tx, i, strategyCall);
    case _ =>
  }
}
