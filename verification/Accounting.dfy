/** The joint accounting invariant of the vault and the receipt token, the
    per-holder ledger over whole runs, and what no one can do to a bystander. */
module Accounting {
  import opened Clarity
  import opened Effects
  import opened Engine
  import opened MapSums
  import opened Protocol
  import Ledger
  import Pricing
  import Vault

  // ---- The invariant ----

  ghost function HeldIn(pool: PoolKey): ShareKey -> bool {
    (k: ShareKey) => k.pool == pool
  }

  ghost function InvestedFrom(pool: PoolKey): AllocationKey -> bool {
    (k: AllocationKey) => k.pool == pool
  }

  ghost function AllShares(b: Books, pool: PoolKey): nat {
    SumIf(b.balances, HeldIn(pool))
  }

  ghost function AllInvested(b: Books, pool: PoolKey): nat {
    SumIf(b.allocations, InvestedFrom(pool))
  }

  /** Nobody holds shares that were not issued, at any price. */
  ghost predicate SharesAddUp(b: Books, pool: PoolKey) {
    AllShares(b, pool) == b.SupplyOf(pool)
  }

  ghost predicate AssetsAddUp(b: Books, pool: PoolKey) {
    b.IdleOf(pool) + AllInvested(b, pool) == b.TotalOf(pool)
  }

  /** The books of one pool: what is idle and what is invested make up the total,
      the holders' shares make up the supply, and each share is worth one unit. */
  ghost predicate PoolBalanced(b: Books, pool: PoolKey) {
    AssetsAddUp(b, pool) && SharesAddUp(b, pool) && b.TotalOf(pool) == b.SupplyOf(pool)
  }

  ghost predicate Balanced(b: Books) {
    forall pool :: PoolBalanced(b, pool)
  }

  lemma AppliedKeepsShares(b: Books, e: Effect, pool: PoolKey)
    requires Allowed(b, e) && SharesAddUp(b, pool)
    ensures SharesAddUp(Applied(b, e), pool)
  {
    match e
    case Deposited(p, holder, amount, shares) =>
      hide Allowed, Applied, SumIf;
      DepositBecomes(b, p, holder, amount, shares);
      SumIfUpdate(b.balances, HeldIn(pool), ShareKey(p, holder), b.SharesOf(p, holder) + shares);
    case Redeemed(p, holder, shares, amount) =>
      hide Allowed, Applied, SumIf;
      RedemptionBounds(b, p, holder, shares, amount);
      RedemptionBecomes(b, p, holder, shares, amount);
      SumIfUpdate(b.balances, HeldIn(pool), ShareKey(p, holder), b.SharesOf(p, holder) - shares);
    case _ =>
      hide SumIf;
  }

  lemma AppliedKeepsAssets(b: Books, e: Effect, pool: PoolKey)
    requires Allowed(b, e) && AssetsAddUp(b, pool)
    ensures AssetsAddUp(Applied(b, e), pool)
  {
    hide Pricing.ComputeDepositShares, Pricing.ComputeRedeemAssets;
    match e
    case Invested(p, strategy, amount) =>
      SumIfUpdate(b.allocations, InvestedFrom(pool), AllocationKey(p, strategy), b.AllocationOf(p, strategy) + amount);
    case _ =>
  }

  /** At one unit per share the prices are exact, so the price stays there. */
  lemma UnitPrice(b: Books, e: Effect)
    requires Allowed(b, e) && !e.NoEffect? && b.TotalOf(e.pool) == b.SupplyOf(e.pool)
    ensures e.Deposited? || e.Redeemed? ==> e.amount == e.shares
  {
    match e
    case Deposited(pool, _, amount, shares) =>
      if b.SupplyOf(pool) > 0 {
        ExactFloor(amount, b.SupplyOf(pool));
      }
    case Redeemed(pool, _, shares, amount) => ExactFloor(shares, b.SupplyOf(pool));
    case _ =>
  }

  lemma ExactFloor(x: nat, d: nat)
    requires d > 0
    ensures x * d / d == x
  {
    Pricing.FloorIsLargest(x * d, d, x);
    Pricing.FloorIsBelow(x * d, d, x + 1);
  }

  lemma AppliedKeepsBalanced(b: Books, e: Effect)
    requires Allowed(b, e) && Balanced(b)
    ensures Balanced(Applied(b, e))
    ensures e.Deposited? || e.Redeemed? ==> e.amount == e.shares
  {
    hide Pricing.ComputeDepositShares, Pricing.ComputeRedeemAssets;
    if !e.NoEffect? {
      assert PoolBalanced(b, e.pool);
      UnitPrice(b, e);
    }
    forall pool ensures PoolBalanced(Applied(b, e), pool) {
      assert PoolBalanced(b, pool);
      AppliedKeepsShares(b, e, pool);
      AppliedKeepsAssets(b, e, pool);
    }
  }

  /** Every step, by anybody, through any function of any contract, keeps the
      books of every pool balanced. */
  lemma StepKeepsBalanced(w: World, step: Step)
    requires FromOutside(step.tx) && Balanced(BooksOf(w))
    ensures Balanced(BooksOf(Next(w, step)))
  {
    hide Executed;
    StepEffect(w, step);
    AppliedKeepsBalanced(BooksOf(w), EffectOf(w, step));
  }

  lemma GenesisBalanced(deployer: Principal, holdings: Ledger.State)
    ensures Balanced(BooksOf(Genesis(deployer, holdings)))
  {
    var b := BooksOf(Genesis(deployer, holdings));
    forall pool ensures PoolBalanced(b, pool) {
      assert AllShares(b, pool) == 0 && AllInvested(b, pool) == 0;
    }
  }

  /** In every reachable state, for every pool: idle + invested == total, the
      holders' shares sum to the supply, and total == supply. */
  lemma {:induction false} ReachableBalanced(deployer: Principal, holdings: Ledger.State, steps: seq<Step>, n: nat)
    requires PossibleRun(Genesis(deployer, holdings), steps) && n <= |steps|
    ensures Balanced(BooksOf(StateAt(Genesis(deployer, holdings), steps, n)))
  {
    hide Executed, EffectOf, StateAt, Next, PossibleRun, Possible;
    var w0 := Genesis(deployer, holdings);
    if n == 0 {
      RunStart(w0, steps);
      GenesisBalanced(deployer, holdings);
    } else {
      ReachableBalanced(deployer, holdings, steps, n - 1);
      RunStep(w0, steps, n - 1);
      StepKeepsBalanced(StateAt(w0, steps, n - 1), steps[n - 1]);
    }
  }

  /** The least first deposit: 1 STX, or 0.0001 sBTC. */
  function FirstDepositOf(asset: Asset): nat {
    if asset == STX then 1000000 else 10000
  }

  /** Asset modes: 1 is STX only, 2 sBTC only, 3 both. */
  predicate ModeAllows(mode: nat, asset: Asset) {
    || (asset == STX && (mode == 1 || mode == 3))
    || (asset == SBTC && (mode == 2 || mode == 3))
  }

  /** While the books are balanced a positive deposit mints one share per unit,
      and the only refusals left in the pricing are a first deposit below the
      minimum and an amount the arithmetic cannot carry: the pool is never
      insolvent (u116) and never mints nothing (u115). */
  lemma DepositPricing(t: Vault.Treasury, pool: PoolKey, amount: nat)
    requires PoolBalanced(FundsBooks(t), pool) && amount > 0
    ensures var r := Vault.PreviewDeposit(t, pool, amount);
            && (r == Ok(amount) || r == Err(114) || r == Abort)
            && (r == Err(114) <==> t.SupplyOf(pool) == 0 && amount < FirstDepositOf(pool.asset))
            && (r == Abort <==> amount * t.SupplyOf(pool) > UINT_MAX)
  {
    var supply := t.SupplyOf(pool);
    assert FundsBooks(t).SupplyOf(pool) == supply && FundsBooks(t).TotalOf(pool) == t.vault.TotalOf(pool);
    if supply > 0 {
      ExactFloor(amount, supply);
    }
  }

  /** What Clarity's arithmetic must carry for a deposit of `amount`. */
  predicate DepositFits(t: Vault.Treasury, pool: PoolKey, holder: Principal, amount: nat) {
    && amount * t.SupplyOf(pool) <= UINT_MAX
    && t.SupplyOf(pool) + amount <= UINT_MAX
    && (Vault.Registration(holder, pool.vault) in t.vault.holderRegistered || Lookup(t.vault.holderCount, holder) < UINT_MAX)
  }

  /** Who may deposit how much into which pool right now. */
  predicate MayDeposit(w: World, tx: Tx, pool: PoolKey, amount: nat) {
    && pool.vault in w.funds.vault.vaults
    && var info := w.funds.vault.vaults[pool.vault];
       && ModeAllows(info.assets, pool.asset)
       && !w.admin.paused && !info.paused
       && (tx.sender == info.owner || info.openDeposits)
       && amount > 0
       && (w.funds.SupplyOf(pool) == 0 ==> amount >= FirstDepositOf(pool.asset))
  }

  /** In balanced books: exactly which deposits go through, and what they mint. */
  lemma DepositStxIff(w: World, tx: Tx, id: nat, amount: nat)
    requires FromOutside(tx) && PoolBalanced(BooksOf(w), PoolKey(id, STX))
    ensures var r := Vault.StxDeposited(w.funds, w.admin.paused, tx, id, amount);
            && (r.Ok? <==>
                  && MayDeposit(w, tx, PoolKey(id, STX), amount)
                  && amount <= w.funds.ledger.StxOf(tx.sender)
                  && DepositFits(w.funds, PoolKey(id, STX), tx.sender, amount))
            && (r.Ok? ==> r.value.1 == amount)
  {
    hide Vault.PreviewDeposit, Vault.Credited, PoolBalanced;
    var pool := PoolKey(id, STX);
    if amount > 0 {
      DepositPricing(w.funds, pool, amount);
      var ledger := Ledger.StxMoved(w.funds.ledger, amount, tx.sender, VaultContract);
      CreditedIff(w.funds.(ledger := if ledger.Some? then ledger.value else w.funds.ledger), pool, tx.sender, amount);
    } else {
      assert Vault.PreviewDeposit(w.funds, pool, 0) == Err(104) by { NothingDeposited(w.funds, pool); }
    }
  }

  lemma DepositSbtcIff(w: World, tx: Tx, id: nat, amount: nat, token: Principal, accepts: bool)
    requires FromOutside(tx) && PoolBalanced(BooksOf(w), PoolKey(id, SBTC))
    ensures var r := Vault.SbtcDeposited(w.funds, w.admin.paused, w.guard.approvedSbtc, tx, id, amount, token, accepts);
            && (r.Ok? <==>
                  && MayDeposit(w, tx, PoolKey(id, SBTC), amount)
                  && w.guard.approvedSbtc == Some(token) && accepts
                  && amount <= w.funds.ledger.TokensOf(token, tx.sender)
                  && DepositFits(w.funds, PoolKey(id, SBTC), tx.sender, amount))
            && (r.Ok? ==> r.value.1 == amount)
  {
    hide Vault.PreviewDeposit, Vault.Credited, PoolBalanced;
    var pool := PoolKey(id, SBTC);
    if amount > 0 {
      DepositPricing(w.funds, pool, amount);
      var ledger := Ledger.TokenMoved(w.funds.ledger, token, accepts, amount, tx.sender, VaultContract);
      CreditedIff(w.funds.(ledger := if ledger.Some? then ledger.value else w.funds.ledger), pool, tx.sender, amount);
    } else {
      assert Vault.PreviewDeposit(w.funds, pool, 0) == Err(104) by { NothingDeposited(w.funds, pool); }
    }
  }

  /** The first-depositor defence: into an empty pool, a STX deposit is refused with
      u114 exactly below 1000000 units, and an sBTC deposit exactly below 10000. */
  lemma FirstDeposit(w: World, tx: Tx, id: nat, amount: nat, token: Principal, accepts: bool)
    requires id in w.funds.vault.vaults && amount > 0
    ensures PoolBalanced(BooksOf(w), PoolKey(id, STX)) && w.funds.SupplyOf(PoolKey(id, STX)) == 0 ==>
      (Vault.StxDeposited(w.funds, w.admin.paused, tx, id, amount) == Err(114) <==> amount < 1000000)
    ensures PoolBalanced(BooksOf(w), PoolKey(id, SBTC)) && w.funds.SupplyOf(PoolKey(id, SBTC)) == 0 && w.guard.approvedSbtc.Some? ==>
      (Vault.SbtcDeposited(w.funds, w.admin.paused, w.guard.approvedSbtc, tx, id, amount, token, accepts) == Err(114)
       <==> amount < 10000)
  {
    hide Vault.PreviewDeposit, Vault.Credited, PoolBalanced;
    if PoolBalanced(BooksOf(w), PoolKey(id, STX)) {
      DepositPricing(w.funds, PoolKey(id, STX), amount);
      CreditedCodes(PoolKey(id, STX), tx.sender, amount);
    }
    if PoolBalanced(BooksOf(w), PoolKey(id, SBTC)) {
      DepositPricing(w.funds, PoolKey(id, SBTC), amount);
      CreditedCodes(PoolKey(id, SBTC), tx.sender, amount);
    }
  }

  /** The bookkeeping of a deposit has no code of its own but overflow. */
  lemma CreditedCodes(pool: PoolKey, holder: Principal, amount: nat)
    requires amount > 0 && IsValidAsset(pool.asset)
    ensures forall t: Vault.Treasury :: Vault.Credited(t, pool, holder, amount, amount) != Err(114)
  {
  }

  lemma NothingDeposited(t: Vault.Treasury, pool: PoolKey)
    ensures Vault.PreviewDeposit(t, pool, 0) == Err(104)
  {
  }

  /** The bookkeeping of a one-to-one deposit only fails where numbers overflow. */
  lemma CreditedIff(t: Vault.Treasury, pool: PoolKey, holder: Principal, amount: nat)
    requires PoolBalanced(FundsBooks(t), pool) && amount > 0 && IsValidAsset(pool.asset)
    ensures Vault.Credited(t, pool, holder, amount, amount).Ok? <==>
      && t.SupplyOf(pool) + amount <= UINT_MAX
      && (Vault.Registration(holder, pool.vault) in t.vault.holderRegistered || Lookup(t.vault.holderCount, holder) < UINT_MAX)
    ensures Vault.Credited(t, pool, holder, amount, amount).Ok? ==>
      Vault.Credited(t, pool, holder, amount, amount).value.1 == amount
  {
    SharesWithinSupply(FundsBooks(t), pool, holder);
    assert t.vault.IdleOf(pool) <= t.vault.TotalOf(pool) == t.SupplyOf(pool);
  }

  // ---- The per-holder ledger ----

  /** What one step paid into a pool for one holder. */
  function PaidBy(e: Effect, pool: PoolKey, holder: Principal): nat {
    if e.Deposited? && e.pool == pool && e.holder == holder then e.amount else 0
  }

  /** What one step paid out of a pool to one holder. */
  function PaidTo(e: Effect, pool: PoolKey, holder: Principal): nat {
    if e.Redeemed? && e.pool == pool && e.holder == holder then e.amount else 0
  }

  function DepositedSoFar(w0: World, steps: seq<Step>, n: nat, pool: PoolKey, holder: Principal): nat
    requires n <= |steps|
  {
    if n == 0 then 0
    else DepositedSoFar(w0, steps, n - 1, pool, holder) + PaidBy(EffectOf(StateAt(w0, steps, n - 1), steps[n - 1]), pool, holder)
  }

  function RedeemedSoFar(w0: World, steps: seq<Step>, n: nat, pool: PoolKey, holder: Principal): nat
    requires n <= |steps|
  {
    if n == 0 then 0
    else RedeemedSoFar(w0, steps, n - 1, pool, holder) + PaidTo(EffectOf(StateAt(w0, steps, n - 1), steps[n - 1]), pool, holder)
  }

  /** A holder's shares move only by the holder's own deposits and redemptions in
      that pool; no step of an owner, the admin, an executor or another depositor
      changes them. */
  lemma OnlyHolderMovesShares(w: World, step: Step, pool: PoolKey, holder: Principal)
    requires FromOutside(step.tx)
    ensures var e := EffectOf(w, step);
            var before, after := BooksOf(w).SharesOf(pool, holder), BooksOf(Next(w, step)).SharesOf(pool, holder);
            after != before ==>
              && step.tx.sender == holder
              && (e.Deposited? || e.Redeemed?) && e.pool == pool && e.holder == holder
              && after == (if e.Deposited? then before + e.shares else before - e.shares)
  {
    hide Executed;
    StepEffect(w, step);
    EffectHolder(w, step);
  }

  /** The holder an effect names is the one who sent the transaction. */
  lemma EffectHolder(w: World, step: Step)
    ensures var e := EffectOf(w, step); (e.Deposited? || e.Redeemed? ==> e.holder == step.tx.sender)
  {
    hide Executed;
  }

  /** In balanced books a step moves a holder's shares by what it paid in or out. */
  lemma AppliedToHolder(b: Books, e: Effect, pool: PoolKey, holder: Principal)
    requires Allowed(b, e) && Balanced(b)
    ensures Applied(b, e).SharesOf(pool, holder) == b.SharesOf(pool, holder) + PaidBy(e, pool, holder) - PaidTo(e, pool, holder)
  {
    hide Pricing.ComputeDepositShares, Pricing.ComputeRedeemAssets;
    if !e.NoEffect? {
      assert PoolBalanced(b, e.pool);
      UnitPrice(b, e);
    }
  }

  /** Over any run from deployment, what a holder paid in minus what the holder
      was paid out is exactly the holder's current share balance. */
  lemma {:induction false} HolderLedger(
    deployer: Principal, holdings: Ledger.State, steps: seq<Step>, n: nat, pool: PoolKey, holder: Principal)
    requires PossibleRun(Genesis(deployer, holdings), steps) && n <= |steps|
    ensures var w0 := Genesis(deployer, holdings);
            DepositedSoFar(w0, steps, n, pool, holder) - RedeemedSoFar(w0, steps, n, pool, holder)
            == BooksOf(StateAt(w0, steps, n)).SharesOf(pool, holder)
  {
    hide Executed, EffectOf, StateAt, Next, PossibleRun, Possible;
    var w0 := Genesis(deployer, holdings);
    if n == 0 {
      RunStart(w0, steps);
    } else {
      var w := StateAt(w0, steps, n - 1);
      HolderLedger(deployer, holdings, steps, n - 1, pool, holder);
      ReachableBalanced(deployer, holdings, steps, n - 1);
      RunStep(w0, steps, n - 1);
      StepEffect(w, steps[n - 1]);
      AppliedToHolder(BooksOf(w), EffectOf(w, steps[n - 1]), pool, holder);
    }
  }

  // ---- Bystanders ----

  /** What a holder's shares of a pool are worth. */
  function ClaimOf(b: Books, pool: PoolKey, holder: Principal): nat {
    Pricing.Claim(b.SharesOf(pool, holder), b.SupplyOf(pool), b.TotalOf(pool))
  }

  lemma SharesWithinSupply(b: Books, pool: PoolKey, holder: Principal)
    requires SharesAddUp(b, pool)
    ensures b.SharesOf(pool, holder) <= b.SupplyOf(pool)
  {
    SumIfBounds(b.balances, HeldIn(pool), ShareKey(pool, holder));
  }

  lemma TwoHoldersWithinSupply(b: Books, pool: PoolKey, one: Principal, other: Principal)
    requires SharesAddUp(b, pool) && one != other
    ensures b.SharesOf(pool, one) + b.SharesOf(pool, other) <= b.SupplyOf(pool)
  {
    SumIfBoundsTwo(b.balances, HeldIn(pool), ShareKey(pool, one), ShareKey(pool, other));
  }

  /** At ANY price (no total == supply here): nobody's claim falls, except by the
      holder's own redemption from that pool. */
  lemma BystanderNeverDiluted(w: World, step: Step, pool: PoolKey, holder: Principal)
    requires FromOutside(step.tx) && SharesAddUp(BooksOf(w), pool)
    requires var e := EffectOf(w, step); !(e.Redeemed? && e.pool == pool && e.holder == holder)
    ensures ClaimOf(BooksOf(w), pool, holder) <= ClaimOf(BooksOf(Next(w, step)), pool, holder)
  {
    hide Executed;
    StepEffect(w, step);
    ClaimNeverFalls(BooksOf(w), EffectOf(w, step), pool, holder);
  }

  lemma ClaimNeverFalls(b: Books, e: Effect, pool: PoolKey, holder: Principal)
    requires Allowed(b, e) && SharesAddUp(b, pool)
    requires !(e.Redeemed? && e.pool == pool && e.holder == holder)
    ensures ClaimOf(b, pool, holder) <= ClaimOf(Applied(b, e), pool, holder)
  {
    hide Pricing.ComputeDepositShares, Pricing.ComputeRedeemAssets, Pricing.Claim, SharesAddUp;
    var h, s, t := b.SharesOf(pool, holder), b.SupplyOf(pool), b.TotalOf(pool);
    SharesWithinSupply(b, pool, holder);
    if e.Touches(pool) {
      match e
      case Deposited(_, _, amount, shares) =>
        DepositKeepsClaim(h, Applied(b, e).SharesOf(pool, holder), s, t, amount, shares, Vault.MinInitialDepositFor(pool.asset));
      case Redeemed(_, redeemer, shares, amount) =>
        TwoHoldersWithinSupply(b, pool, holder, redeemer);
        RedeemKeepsClaim(h, s, t, shares, amount);
      case Invested(_, _, _) =>
    }
  }

  lemma DepositKeepsClaim(h: nat, h': nat, s: nat, t: nat, amount: nat, shares: nat, minInitial: nat)
    requires h <= h' && h <= s && Pricing.ComputeDepositShares(s, t, amount, minInitial) == Ok(shares)
    ensures Pricing.Claim(h, s, t) <= Pricing.Claim(h', s + shares, t + amount)
  {
    if s > 0 {
      Pricing.DepositKeepsPrice(s, t, amount, minInitial);
      hide Pricing.ComputeDepositShares, Pricing.Claim;
      Pricing.ClaimMonotone(h, s, t, s + shares, t + amount);
      MoreSharesMoreClaim(h, h', s + shares, t + amount);
    }
  }

  lemma RedeemKeepsClaim(h: nat, s: nat, t: nat, shares: nat, amount: nat)
    requires h + shares <= s && amount <= t && Pricing.ComputeRedeemAssets(shares, s, t) == Ok(amount)
    ensures Pricing.Claim(h, s, t) <= Pricing.Claim(h, s - shares, t - amount)
  {
    Pricing.RedeemKeepsPrice(shares, s, t);
    if h > 0 {
      Pricing.ClaimMonotone(h, s, t, s - shares, t - amount);
    } else {
      assert Pricing.Claim(0, s, t) == 0;
    }
  }

  lemma MoreSharesMoreClaim(h: nat, h': nat, s: nat, t: nat)
    requires h <= h' && s > 0
    ensures Pricing.Claim(h, s, t) <= Pricing.Claim(h', s, t)
  {
    Pricing.MulLe(h, h', t);
    Pricing.MulLe(h * t, h' * t, s);
    Pricing.FloorMonotone(h * t, s, h' * t, s);
  }

  // ---- Positions ----

  /** get-position answers the claim the redemption code pays: redeeming every
      share one holds pays exactly `claim`, and goes through precisely when
      `redeemable` says so. */
  lemma PositionIsHonest(t: Vault.Treasury, pool: PoolKey, holder: Principal)
    requires SharesAddUp(FundsBooks(t), pool)
    requires Vault.GetPosition(t, pool, holder).Ok?
    ensures var p := Vault.GetPosition(t, pool, holder).value;
            && p.claim == ClaimOf(FundsBooks(t), pool, holder) <= p.totalAssets
            && p.ownershipBps <= BPS
            && p.redeemable <= p.idle
            && (p.claim > 0 ==>
                  && Vault.PreviewRedeem(t, pool, p.shares) == Ok(p.claim)
                  && (Vault.Debited(t, pool, holder, p.shares, p.claim) == Err(105) <==> p.redeemable < p.claim))
  {
    var b := FundsBooks(t);
    var shares, supply, total := b.SharesOf(pool, holder), b.SupplyOf(pool), b.TotalOf(pool);
    SharesWithinSupply(b, pool, holder);
    ClaimWithinTotal(shares, supply, total);
    hide Pricing.ComputeDepositShares;
    if supply > 0 && Pricing.Claim(shares, supply, total) > 0 {
      ClaimIsPaid(shares, supply, total);
    }
  }

  /** `q` is `x / d` after flooring. */
  predicate IsFloor(q: nat, x: nat, d: nat) {
    q * d <= x < (q + 1) * d
  }

  /** get-position in every state: it answers unless a product overflows, and then with
      the fields of the state, the floored claim and share, and the lesser of claim and
      idle as redeemable; of an empty pool everything derived is zero. */
  lemma PositionFields(t: Vault.Treasury, pool: PoolKey, holder: Principal)
    ensures var shares, supply := Lookup(t.receipts.balances, ShareKey(pool, holder)), Lookup(t.receipts.supplies, pool);
            var total, idle := Lookup(t.vault.total, pool), Lookup(t.vault.idle, pool);
            var r := Vault.GetPosition(t, pool, holder);
            && !r.Err?
            && (r.Abort? <==> supply > 0 && (shares * total > UINT_MAX || shares * 10000 > UINT_MAX))
            && (r.Ok? ==>
                  && r.value.shares == shares && r.value.supply == supply && r.value.totalAssets == total && r.value.idle == idle
                  && (supply == 0 ==> r.value.claim == 0 && r.value.ownershipBps == 0)
                  && (supply > 0 ==>
                        IsFloor(r.value.claim, shares * total, supply) && IsFloor(r.value.ownershipBps, shares * 10000, supply))
                  && r.value.redeemable == if r.value.claim <= idle then r.value.claim else idle)
  {
    var shares, supply := Lookup(t.receipts.balances, ShareKey(pool, holder)), Lookup(t.receipts.supplies, pool);
    if supply > 0 {
      Pricing.FloorBounds(shares * Lookup(t.vault.total, pool), supply);
      Pricing.FloorBounds(shares * 10000, supply);
    }
  }

  lemma ClaimWithinTotal(shares: nat, supply: nat, total: nat)
    requires shares <= supply
    ensures Pricing.Claim(shares, supply, total) <= total
    ensures supply > 0 ==> shares * BPS / supply <= BPS
  {
    if supply > 0 {
      Pricing.MulLe(shares, supply, total);
      Pricing.FloorIsBelow(shares * total, supply, total + 1);
      Pricing.FloorIsBelow(shares * BPS, supply, BPS + 1);
    }
  }

  lemma ClaimIsPaid(shares: nat, supply: nat, total: nat)
    requires shares <= supply && supply > 0 && Pricing.Claim(shares, supply, total) > 0
    ensures shares * total <= UINT_MAX ==> Pricing.ComputeRedeemAssets(shares, supply, total) == Ok(Pricing.Claim(shares, supply, total))
  {
  }
}
