/** contracts/sovereignty-vault-v7.clar: vaults, pools, deposits, redemptions,
    rebalances and the discovery indexes. */
module Vault {
  import opened Clarity
  import Ledger
  import Pricing
  import ReceiptToken
  import RiskGuard

  const ASSETS_STX_ONLY: nat := 1
  const ASSETS_SBTC_ONLY: nat := 2
  const ASSETS_BOTH: nat := 3
  const PURPOSE_CUSTOM: nat := 5
  const MIN_INITIAL_DEPOSIT_STX: nat := 1000000
  const MIN_INITIAL_DEPOSIT_SBTC: nat := 10000

  datatype Info = Info(
    owner: Principal, name: string, purpose: nat, assets: nat, openDeposits: bool, paused: bool, createdAt: nat)

  datatype IndexKey = IndexKey(who: Principal, index: nat)
  datatype Registration = Registration(holder: Principal, vault: nat)

  datatype State = State(
    nextVaultId: nat,
    vaults: map<nat, Info>,
    ownerCount: map<Principal, nat>,
    ownerVaults: map<IndexKey, nat>,
    holderCount: map<Principal, nat>,
    holderVaults: map<IndexKey, nat>,
    holderRegistered: set<Registration>,  // the keys of a map that only ever stores `true`
    idle: map<PoolKey, nat>,
    total: map<PoolKey, nat>,
    allocations: map<AllocationKey, nat>)
  {
    function IdleOf(pool: PoolKey): nat {
      Lookup(idle, pool)
    }

    function TotalOf(pool: PoolKey): nat {
      Lookup(total, pool)
    }

    function AllocationOf(pool: PoolKey, strategy: nat): nat {
      Lookup(allocations, AllocationKey(pool, strategy))
    }
  }

  const EMPTY := State(1, map[], map[], map[], map[], map[], {}, map[], map[], map[])

  /** The vault's books, the share ledger and the real holdings: what deposits,
      redemptions and rebalances change. */
  datatype Treasury = Treasury(vault: State, receipts: ReceiptToken.State, ledger: Ledger.State) {
    function SupplyOf(pool: PoolKey): nat {
      receipts.SupplyOf(pool)
    }
  }

  // ---- Reads ----

  predicate AssetInMode(mode: nat, asset: Asset) {
    match asset
    case STX => mode == ASSETS_STX_ONLY || mode == ASSETS_BOTH
    case SBTC => mode == ASSETS_SBTC_ONLY || mode == ASSETS_BOTH
    case Other(_) => false
  }

  predicate SupportsAsset(s: State, pool: PoolKey) {
    pool.vault in s.vaults && AssetInMode(s.vaults[pool.vault].assets, pool.asset)
  }

  predicate IsVaultPaused(s: State, id: nat) {
    id in s.vaults && s.vaults[id].paused
  }

  function MinInitialDepositFor(asset: Asset): nat {
    if asset == STX then MIN_INITIAL_DEPOSIT_STX else MIN_INITIAL_DEPOSIT_SBTC
  }

  function PreviewDeposit(t: Treasury, pool: PoolKey, amount: nat): Response<nat> {
    Pricing.ComputeDepositShares(t.SupplyOf(pool), t.vault.TotalOf(pool), amount, MinInitialDepositFor(pool.asset))
  }

  function PreviewRedeem(t: Treasury, pool: PoolKey, shares: nat): Response<nat> {
    Pricing.ComputeRedeemAssets(shares, t.SupplyOf(pool), t.vault.TotalOf(pool))
  }

  datatype Position = Position(
    shares: nat, supply: nat, totalAssets: nat, idle: nat, ownershipBps: nat, claim: nat, redeemable: nat)

  /** get-position */
  function GetPosition(t: Treasury, pool: PoolKey, holder: Principal): Response<Position> {
    var shares := t.receipts.BalanceOf(pool, holder);
    var supply := t.SupplyOf(pool);
    var total := t.vault.TotalOf(pool);
    var idle := t.vault.IdleOf(pool);
    if supply == 0 then Ok(Position(shares, supply, total, idle, 0, 0, 0))
    else
      var claimProduct :- Mul(shares, total);
      var shareProduct :- Mul(shares, BPS);
      var claim := Div(claimProduct, supply);
      var ownershipBps := Div(shareProduct, supply);
      Ok(Position(shares, supply, total, idle, ownershipBps, claim, if claim < idle then claim else idle))
  }

  // ---- Vault lifecycle ----

  datatype Creation = Creation(
    name: string, purpose: nat, assets: nat, openDeposits: bool, params: RiskGuard.Params, autonomous: bool)

  function VaultCreated(s: State, guard: RiskGuard.State, protocolPaused: bool, tx: Tx, c: Creation)
    : Response<((State, RiskGuard.State), nat)>
  {
    var id := s.nextVaultId;
    var index := Lookup(s.ownerCount, tx.sender);
    :- Asserts(!protocolPaused, 102);
    :- Asserts(|c.name| > 0, 119);
    :- Asserts(c.purpose <= PURPOSE_CUSTOM, 120);
    :- Asserts(ASSETS_STX_ONLY <= c.assets <= ASSETS_BOTH, 121);
    var nextIndex :- Add(index, 1);
    var nextId :- Add(id, 1);
    var (guard', _) :- RiskGuard.ConfigInitialised(guard, VaultContract, id, c.params, c.autonomous);
    var s' := s.(
      vaults := s.vaults[id := Info(tx.sender, c.name, c.purpose, c.assets, c.openDeposits, false, tx.height)],
      ownerVaults := s.ownerVaults[IndexKey(tx.sender, index) := id],
      ownerCount := s.ownerCount[tx.sender := nextIndex],
      nextVaultId := nextId);
    Ok(((s', guard'), id))
  }

  /** Looks a vault up for a function only its owner may call. */
  function OwnedVault(s: State, tx: Tx, id: nat): Response<Info> {
    var vault :- Unwrap(Find(s.vaults, id), 101);
    :- Asserts(tx.sender == vault.owner, 100);
    Ok(vault)
  }

  function ConfigSet(s: State, tx: Tx, id: nat, name: string, openDeposits: bool): Response<(State, nat)> {
    var vault :- OwnedVault(s, tx, id);
    :- Asserts(|name| > 0, 119);
    Ok((s.(vaults := s.vaults[id := vault.(name := name, openDeposits := openDeposits)]), TRUE))
  }

  function PausedSet(s: State, tx: Tx, id: nat, pause: bool): Response<(State, nat)> {
    var vault :- OwnedVault(s, tx, id);
    :- Asserts(vault.paused != pause, if pause then 122 else 123);
    Ok((s.(vaults := s.vaults[id := vault.(paused := pause)]), TRUE))
  }

  function RiskConfigSet(s: State, guard: RiskGuard.State, tx: Tx, id: nat, p: RiskGuard.Params, autonomous: bool)
    : Response<(RiskGuard.State, nat)>
  {
    var _ :- OwnedVault(s, tx, id);
    RiskGuard.ConfigReplaced(guard, VaultContract, id, p, autonomous)
  }

  function AutonomousModeSet(s: State, guard: RiskGuard.State, tx: Tx, id: nat, enabled: bool): Response<(RiskGuard.State, nat)> {
    var _ :- OwnedVault(s, tx, id);
    RiskGuard.AutonomySet(guard, VaultContract, id, enabled)
  }

  // ---- Deposits ----

  function HolderRegistered(s: State, holder: Principal, vault: nat): Response<State> {
    if Registration(holder, vault) in s.holderRegistered then Ok(s)
    else
      var index := Lookup(s.holderCount, holder);
      var next :- Add(index, 1);
      Ok(s.(holderRegistered := s.holderRegistered + {Registration(holder, vault)},
            holderVaults := s.holderVaults[IndexKey(holder, index) := vault],
            holderCount := s.holderCount[holder := next]))
  }

  /** The books after `amount` arrived and `shares` are minted for it. */
  function Credited(t: Treasury, pool: PoolKey, depositor: Principal, amount: nat, shares: nat): Response<(Treasury, nat)> {
    var idle :- Add(t.vault.IdleOf(pool), amount);
    var total :- Add(t.vault.TotalOf(pool), amount);
    var (receipts, _) :- ReceiptToken.Minted(t.receipts, VaultContract, pool, shares, depositor);
    var vault :- HolderRegistered(t.vault.(idle := t.vault.idle[pool := idle], total := t.vault.total[pool := total]),
                                  depositor, pool.vault);
    Ok((Treasury(vault, receipts, t.ledger), shares))
  }

  /** The checks deposit-stx and deposit-sbtc make alike. */
  function DepositAllowed(vault: Info, protocolPaused: bool, tx: Tx, asset: Asset): Check {
    if !AssetInMode(vault.assets, asset) then Fail(111)
    else if protocolPaused then Fail(102)
    else if vault.paused then Fail(112)
    else if tx.sender != vault.owner && !vault.openDeposits then Fail(113)
    else Pass
  }

  function StxDeposited(t: Treasury, protocolPaused: bool, tx: Tx, id: nat, amount: nat): Response<(Treasury, nat)> {
    var pool := PoolKey(id, STX);
    var vault :- Unwrap(Find(t.vault.vaults, id), 101);
    var shares :- PreviewDeposit(t, pool, amount);
    :- DepositAllowed(vault, protocolPaused, tx, STX);
    var ledger :- Unwrap(Ledger.StxMoved(t.ledger, amount, tx.sender, VaultContract), 106);
    Credited(t.(ledger := ledger), pool, tx.sender, amount, shares)
  }

  function SbtcDeposited(
    t: Treasury, protocolPaused: bool, approvedSbtc: Option<Principal>, tx: Tx, id: nat, amount: nat,
    token: Principal, accepts: bool): Response<(Treasury, nat)>
  {
    var pool := PoolKey(id, SBTC);
    var vault :- Unwrap(Find(t.vault.vaults, id), 101);
    var approved :- Unwrap(approvedSbtc, 109);
    var shares :- PreviewDeposit(t, pool, amount);
    :- DepositAllowed(vault, protocolPaused, tx, SBTC);
    :- Asserts(token == approved, 103);
    var ledger :- Unwrap(Ledger.TokenMoved(t.ledger, token, accepts, amount, tx.sender, VaultContract), 106);
    Credited(t.(ledger := ledger), pool, tx.sender, amount, shares)
  }

  // ---- Redemptions ----

  /** The books after `shares` are burned for `payout`; the payout itself is moved
      by the caller. */
  function Debited(t: Treasury, pool: PoolKey, holder: Principal, shares: nat, payout: nat): Response<Treasury> {
    if shares > t.receipts.BalanceOf(pool, holder) then Err(117)
    else
      :- Asserts(payout <= t.vault.IdleOf(pool), 105);
      var (receipts, _) :- ReceiptToken.Burned(t.receipts, VaultContract, pool, shares, holder);
      if t.vault.TotalOf(pool) < payout then Abort
      else
        Ok(Treasury(t.vault.(idle := t.vault.idle[pool := t.vault.IdleOf(pool) - payout],
                             total := t.vault.total[pool := t.vault.TotalOf(pool) - payout]),
                    receipts, t.ledger))
  }

  function StxRedeemed(t: Treasury, tx: Tx, id: nat, shares: nat): Response<(Treasury, nat)> {
    var pool := PoolKey(id, STX);
    var vault :- Unwrap(Find(t.vault.vaults, id), 101);
    var payout :- PreviewRedeem(t, pool, shares);
    :- Asserts(AssetInMode(vault.assets, STX), 111);
    var debited :- Debited(t, pool, tx.sender, shares, payout);
    var ledger :- Unwrap(Ledger.StxMoved(debited.ledger, payout, VaultContract, tx.sender), 106);
    Ok((debited.(ledger := ledger), payout))
  }

  function SbtcRedeemed(
    t: Treasury, approvedSbtc: Option<Principal>, tx: Tx, id: nat, shares: nat, token: Principal, accepts: bool)
    : Response<(Treasury, nat)>
  {
    var pool := PoolKey(id, SBTC);
    var vault :- Unwrap(Find(t.vault.vaults, id), 101);
    var approved :- Unwrap(approvedSbtc, 109);
    var payout :- PreviewRedeem(t, pool, shares);
    :- Asserts(AssetInMode(vault.assets, SBTC), 111);
    :- Asserts(token == approved, 103);
    var debited :- Debited(t, pool, tx.sender, shares, payout);
    var ledger :- Unwrap(Ledger.TokenMoved(debited.ledger, token, accepts, payout, VaultContract, tx.sender), 106);
    Ok((debited.(ledger := ledger), payout))
  }

  // ---- Strategy allocation ----

  /** A strategy contract and what its `deposit` does when the vault calls it: None
      when it fails, otherwise the token ledgers it leaves behind. It runs with
      the vault as tx-sender, so nothing is assumed about them here. */
  datatype StrategyCall = StrategyCall(strategyContract: Principal, outcome: Option<Ledger.State>)

  function Rebalanced(
    t: Treasury, executionEnabled: bool, registered: Option<Principal>, caller: Principal,
    pool: PoolKey, strategy: nat, amount: nat, call: StrategyCall): Response<(Treasury, nat)>
  {
    if caller != EngineContract then Err(107)
    else
      :- Asserts(executionEnabled, 124);
      :- Asserts(IsValidAsset(pool.asset), 110);
      :- Asserts(pool.vault in t.vault.vaults, 101);
      :- Asserts(!IsVaultPaused(t.vault, pool.vault), 112);
      :- Asserts(t.vault.IdleOf(pool) >= amount, 105);
      :- Asserts(Some(call.strategyContract) == registered, 108);
      var ledger :- Unwrap(call.outcome, 106);
      var allocation :- Add(t.vault.AllocationOf(pool, strategy), amount);
      Ok((t.(vault := t.vault.(idle := t.vault.idle[pool := t.vault.IdleOf(pool) - amount],
                               allocations := t.vault.allocations[AllocationKey(pool, strategy) := allocation]),
             ledger := ledger), TRUE))
  }

  // ---- The contract itself ----

  class Contract {
    var nextVaultId: nat
    var vaults: map<nat, Info>
    var ownerCount: map<Principal, nat>
    var ownerVaults: map<IndexKey, nat>
    var holderCount: map<Principal, nat>
    var holderVaults: map<IndexKey, nat>
    var holderRegistered: set<Registration>
    var idle: map<PoolKey, nat>
    var total: map<PoolKey, nat>
    var allocations: map<AllocationKey, nat>

    const guard: RiskGuard.Contract
    const receipts: ReceiptToken.Contract
    const ledger: Ledger.Contract

    ghost function View(): State
      reads this
    {
      State(nextVaultId, vaults, ownerCount, ownerVaults, holderCount, holderVaults, holderRegistered,
            idle, total, allocations)
    }

    ghost function Funds(): Treasury
      reads this, receipts, ledger
    {
      Treasury(View(), receipts.View(), ledger.View())
    }

    constructor (guard: RiskGuard.Contract, receipts: ReceiptToken.Contract, ledger: Ledger.Contract)
      ensures View() == EMPTY
      ensures this.guard == guard && this.receipts == receipts && this.ledger == ledger
    {
      nextVaultId, vaults := 1, map[];
      ownerCount, ownerVaults := map[], map[];
      holderCount, holderVaults, holderRegistered := map[], map[], {};
      idle, total, allocations := map[], map[], map[];
      this.guard, this.receipts, this.ledger := guard, receipts, ledger;
    }

    method Create(tx: Tx, protocolPaused: bool, c: Creation) returns (r: Response<nat>)
      modifies this, guard
      ensures Agrees(VaultCreated(old(View()), old(guard.View()), protocolPaused, tx, c), r, (View(), guard.View()))
    {
      hide RiskGuard.ConfigInitialised;
      var id := nextVaultId;
      var index := Lookup(ownerCount, tx.sender);
      if protocolPaused { return Err(102); }
      if |c.name| == 0 { return Err(119); }
      if c.purpose > PURPOSE_CUSTOM { return Err(120); }
      if c.assets < ASSETS_STX_ONLY || ASSETS_BOTH < c.assets { return Err(121); }
      vaults := vaults[id := Info(tx.sender, c.name, c.purpose, c.assets, c.openDeposits, false, tx.height)];
      ownerVaults := ownerVaults[IndexKey(tx.sender, index) := id];
      var nextIndex :- Add(index, 1);
      ownerCount := ownerCount[tx.sender := nextIndex];
      nextVaultId :- Add(id, 1);
      var _ :- guard.InitConfig(VaultContract, id, c.params, c.autonomous);
      return Ok(id);
    }

    method SetConfig(tx: Tx, id: nat, name: string, openDeposits: bool) returns (r: Response<nat>)
      modifies this
      ensures Agrees(ConfigSet(old(View()), tx, id, name, openDeposits), r, View())
    {
      if id !in vaults { return Err(101); }
      if tx.sender != vaults[id].owner { return Err(100); }
      if |name| == 0 { return Err(119); }
      vaults := vaults[id := vaults[id].(name := name, openDeposits := openDeposits)];
      return Ok(TRUE);
    }

    method SetPaused(tx: Tx, id: nat, pause: bool) returns (r: Response<nat>)
      modifies this
      ensures Agrees(PausedSet(old(View()), tx, id, pause), r, View())
    {
      if id !in vaults { return Err(101); }
      if tx.sender != vaults[id].owner { return Err(100); }
      if vaults[id].paused == pause { return Err(if pause then 122 else 123); }
      vaults := vaults[id := vaults[id].(paused := pause)];
      return Ok(TRUE);
    }

    method SetRiskConfig(tx: Tx, id: nat, p: RiskGuard.Params, autonomous: bool) returns (r: Response<nat>)
      modifies guard
      ensures Agrees(RiskConfigSet(View(), old(guard.View()), tx, id, p, autonomous), r, guard.View())
    {
      if id !in vaults { return Err(101); }
      if tx.sender != vaults[id].owner { return Err(100); }
      r := guard.ReplaceConfig(VaultContract, id, p, autonomous);
    }

    method SetAutonomousMode(tx: Tx, id: nat, enabled: bool) returns (r: Response<nat>)
      modifies guard
      ensures Agrees(AutonomousModeSet(View(), old(guard.View()), tx, id, enabled), r, guard.View())
    {
      if id !in vaults { return Err(101); }
      if tx.sender != vaults[id].owner { return Err(100); }
      r := guard.SetAutonomy(VaultContract, id, enabled);
    }

    method RegisterHolder(holder: Principal, vault: nat) returns (r: Response<nat>)
      modifies this
      ensures var spec := HolderRegistered(old(View()), holder, vault);
              Agrees(if spec.Ok? then Ok((spec.value, TRUE)) else spec.PropagateFailure(), r, View())
    {
      if Registration(holder, vault) !in holderRegistered {
        var index := Lookup(holderCount, holder);
        holderRegistered := holderRegistered + {Registration(holder, vault)};
        holderVaults := holderVaults[IndexKey(holder, index) := vault];
        var next :- Add(index, 1);
        holderCount := holderCount[holder := next];
      }
      return Ok(TRUE);
    }

    /** The part of a deposit after the transfer. */
    method Credit(pool: PoolKey, depositor: Principal, amount: nat, shares: nat) returns (r: Response<nat>)
      modifies this, receipts
      ensures Agrees(Credited(old(Funds()), pool, depositor, amount, shares), r, Funds())
    {
      hide HolderRegistered, ReceiptToken.Minted;
      var oldTotal := Lookup(total, pool);
      var newIdle :- Add(Lookup(idle, pool), amount);
      idle := idle[pool := newIdle];
      var newTotal :- Add(oldTotal, amount);
      total := total[pool := newTotal];
      var _ :- receipts.MintShares(VaultContract, pool, shares, depositor);
      var _ :- RegisterHolder(depositor, pool.vault);
      return Ok(shares);
    }

    method Preview(pool: PoolKey, amount: nat) returns (r: Response<nat>)
      ensures r == PreviewDeposit(Funds(), pool, amount)
    {
      r := Pricing.ComputeDepositShares(Lookup(receipts.supplies, pool), Lookup(total, pool), amount,
                                        MinInitialDepositFor(pool.asset));
    }

    method DepositStx(tx: Tx, protocolPaused: bool, id: nat, amount: nat) returns (r: Response<nat>)
      modifies this, receipts, ledger
      ensures Agrees(StxDeposited(old(Funds()), protocolPaused, tx, id, amount), r, Funds())
    {
      hide Credited, PreviewDeposit, Ledger.StxMoved;
      if id !in vaults { return Err(101); }
      var shares :- Preview(PoolKey(id, STX), amount);
      var allowed := DepositAllowed(vaults[id], protocolPaused, tx, STX);
      if allowed.Fail? { return Err(allowed.code); }
      var moved := ledger.TransferStx(amount, tx.sender, VaultContract);
      if !moved { return Err(106); }
      r := Credit(PoolKey(id, STX), tx.sender, amount, shares);
    }

    method DepositSbtc(tx: Tx, protocolPaused: bool, id: nat, amount: nat, token: Principal, accepts: bool)
      returns (r: Response<nat>)
      modifies this, receipts, ledger
      ensures Agrees(SbtcDeposited(old(Funds()), protocolPaused, guard.View().approvedSbtc, tx, id, amount, token, accepts),
                     r, Funds())
    {
      hide Credited, PreviewDeposit, Ledger.TokenMoved;
      if id !in vaults { return Err(101); }
      if guard.approvedSbtc.None? { return Err(109); }
      var shares :- Preview(PoolKey(id, SBTC), amount);
      var allowed := DepositAllowed(vaults[id], protocolPaused, tx, SBTC);
      if allowed.Fail? { return Err(allowed.code); }
      if token != guard.approvedSbtc.value { return Err(103); }
      var moved := ledger.TransferToken(token, accepts, amount, tx.sender, VaultContract);
      if !moved { return Err(106); }
      r := Credit(PoolKey(id, SBTC), tx.sender, amount, shares);
    }

    /** The part of a redemption between the checks of the call and the payout. */
    method Debit(pool: PoolKey, holder: Principal, shares: nat, payout: nat) returns (r: Response<nat>)
      modifies this, receipts
      ensures var spec := Debited(old(Funds()), pool, holder, shares, payout);
              Agrees(if spec.Ok? then Ok((spec.value, payout)) else spec.PropagateFailure(), r, Funds())
    {
      hide ReceiptToken.Burned;
      var oldIdle, oldTotal := Lookup(idle, pool), Lookup(total, pool);
      if shares > Lookup(receipts.balances, ShareKey(pool, holder)) { return Err(117); }
      if payout > oldIdle { return Err(105); }
      var _ :- receipts.BurnShares(VaultContract, pool, shares, holder);
      idle := idle[pool := oldIdle - payout];
      if oldTotal < payout { return Abort; }
      total := total[pool := oldTotal - payout];
      return Ok(payout);
    }

    method RedeemStx(tx: Tx, id: nat, shares: nat) returns (r: Response<nat>)
      modifies this, receipts, ledger
      ensures Agrees(StxRedeemed(old(Funds()), tx, id, shares), r, Funds())
    {
      hide Debited, Pricing.ComputeRedeemAssets, Ledger.StxMoved;
      var pool := PoolKey(id, STX);
      if id !in vaults { return Err(101); }
      var payout :- Pricing.ComputeRedeemAssets(shares, Lookup(receipts.supplies, pool), Lookup(total, pool));
      if !AssetInMode(vaults[id].assets, STX) { return Err(111); }
      var _ :- Debit(pool, tx.sender, shares, payout);
      var moved := ledger.TransferStx(payout, VaultContract, tx.sender);
      if !moved { return Err(106); }
      return Ok(payout);
    }

    method RedeemSbtc(tx: Tx, id: nat, shares: nat, token: Principal, accepts: bool) returns (r: Response<nat>)
      modifies this, receipts, ledger
      ensures Agrees(SbtcRedeemed(old(Funds()), guard.View().approvedSbtc, tx, id, shares, token, accepts), r, Funds())
    {
      hide Debited, Pricing.ComputeRedeemAssets, Ledger.TokenMoved;
      var pool := PoolKey(id, SBTC);
      if id !in vaults { return Err(101); }
      if guard.approvedSbtc.None? { return Err(109); }
      var payout :- Pricing.ComputeRedeemAssets(shares, Lookup(receipts.supplies, pool), Lookup(total, pool));
      if !AssetInMode(vaults[id].assets, SBTC) { return Err(111); }
      if token != guard.approvedSbtc.value { return Err(103); }
      var _ :- Debit(pool, tx.sender, shares, payout);
      var moved := ledger.TransferToken(token, accepts, payout, VaultContract, tx.sender);
      if !moved { return Err(106); }
      return Ok(payout);
    }

    method ExecuteRebalance(
      caller: Principal, executionEnabled: bool, registered: Option<Principal>,
      pool: PoolKey, strategy: nat, amount: nat, call: StrategyCall) returns (r: Response<nat>)
      modifies this, ledger
      ensures Agrees(Rebalanced(old(Funds()), executionEnabled, registered, caller, pool, strategy, amount, call), r, Funds())
    {
      var oldIdle := Lookup(idle, pool);
      if caller != EngineContract { return Err(107); }
      if !executionEnabled { return Err(124); }
      if !IsValidAsset(pool.asset) { return Err(110); }
      if pool.vault !in vaults { return Err(101); }
      if vaults[pool.vault].paused { return Err(112); }
      if oldIdle < amount { return Err(105); }
      if Some(call.strategyContract) != registered { return Err(108); }
      idle := idle[pool := oldIdle - amount];
      if call.outcome.None? { return Err(106); }
      ledger.Assign(call.outcome.value);
      var allocation :- Add(Lookup(allocations, AllocationKey(pool, strategy)), amount);
      allocations := allocations[AllocationKey(pool, strategy) := allocation];
      return Ok(TRUE);
    }

    /** The runtime's undo. */
    method Assign(s: State)
      modifies this
      ensures View() == s
    {
      nextVaultId, vaults := s.nextVaultId, s.vaults;
      ownerCount, ownerVaults := s.ownerCount, s.ownerVaults;
      holderCount, holderVaults, holderRegistered := s.holderCount, s.holderVaults, s.holderRegistered;
      idle, total, allocations := s.idle, s.total, s.allocations;
    }
  }
}
