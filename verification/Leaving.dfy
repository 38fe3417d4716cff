/** Getting out of sBTC on a chain that is not mainnet, whatever tokens were approved
    along the way: who can redeem, and when everybody can. */
module Leaving {
  import opened Accounting
  import opened Clarity
  import opened Directory
  import opened Effects
  import opened Engine
  import opened MapSums
  import opened Protocol
  import opened Solvency
  import Ledger
  import Pricing
  import RiskGuard
  import Vault

  // ---- States to leave from ----

  /** Only principals that send transactions from outside hold shares. */
  ghost predicate HoldersOutside(b: Books) {
    forall pool, holder :: b.SharesOf(pool, holder) > 0 ==> holder != VaultContract && holder != EngineContract
  }

  lemma StepKeepsHoldersOutside(w: World, step: Step)
    requires FromOutside(step.tx) && HoldersOutside(BooksOf(w))
    ensures HoldersOutside(BooksOf(Next(w, step)))
  {
    hide Executed, EffectOf;
    forall pool, holder | BooksOf(Next(w, step)).SharesOf(pool, holder) > 0
      ensures holder != VaultContract && holder != EngineContract
    {
      OnlyHolderMovesShares(w, step, pool, holder);
    }
  }

  lemma {:induction false} ReachableHoldersOutside(deployer: Principal, holdings: Ledger.State, steps: seq<Step>, n: nat)
    requires PossibleRun(Genesis(deployer, holdings), steps) && n <= |steps|
    ensures HoldersOutside(BooksOf(StateAt(Genesis(deployer, holdings), steps, n)))
  {
    hide Executed, EffectOf, StateAt, Next, PossibleRun, Possible;
    var w0 := Genesis(deployer, holdings);
    if n == 0 {
      RunStart(w0, steps);
    } else {
      ReachableHoldersOutside(deployer, holdings, steps, n - 1);
      RunStep(w0, steps, n - 1);
      StepKeepsHoldersOutside(StateAt(w0, steps, n - 1), steps[n - 1]);
    }
  }

  /** What every run off mainnet guarantees, with the token approved at its end. */
  ghost predicate Leavable(w: World, token: Principal) {
    Sound(w) && NothingDeployed(w) && HoldersOutside(BooksOf(w)) && w.guard.approvedSbtc == Some(token)
  }

  lemma ReachableLeavable(deployer: Principal, holdings: Ledger.State, steps: seq<Step>, token: Principal)
    requires PossibleRun(Genesis(deployer, holdings), steps) && OffMainnet(steps)
    requires StateAt(Genesis(deployer, holdings), steps, |steps|).guard.approvedSbtc == Some(token)
    ensures Leavable(StateAt(Genesis(deployer, holdings), steps, |steps|), token)
  {
    hide Executed, EffectOf, StateAt, Next, PossibleRun, Possible, Sound, HoldersOutside, NothingDeployed;
    ReachableSound(deployer, holdings, steps, |steps|);
    ReachableNothingDeployed(deployer, holdings, steps, |steps|);
    ReachableHoldersOutside(deployer, holdings, steps, |steps|);
  }

  // ---- One holder ----

  function SbtcPool(id: nat): PoolKey {
    PoolKey(id, SBTC)
  }

  function Redemption(tx: Tx, id: nat, s: nat, token: Principal): Step {
    Step(tx, ToPools(RedeemSbtc(id, s, token, true)))
  }

  /** Exactly which redemptions of own shares go through; each pays one unit per share. */
  lemma RedeemsIff(w: World, tx: Tx, id: nat, s: nat, token: Principal)
    requires FromOutside(tx) && Leavable(w, token)
    requires 0 < s <= BooksOf(w).SharesOf(SbtcPool(id), tx.sender)
    ensures var r := Executed(w, Redemption(tx, id, s, token));
            && (r.Ok? <==> s <= w.funds.ledger.TokensOf(token, VaultContract) && s * BooksOf(w).TotalOf(SbtcPool(id)) <= UINT_MAX)
            && (r.Ok? ==>
                  && r.value.1 == s
                  && r.value.0.funds.ledger.TokensOf(token, tx.sender) == w.funds.ledger.TokensOf(token, tx.sender) + s)
  {
    hide Vault.SbtcRedeemed;
    var pool := SbtcPool(id);
    if s * BooksOf(w).TotalOf(pool) <= UINT_MAX {
      OffMainnetAllIdle(w, pool);
      assert PoolBalanced(BooksOf(w), pool);
      SharesWithinSupply(BooksOf(w), pool, tx.sender);
      RedeemSbtcAnswer(w, tx, id, s, token);
    } else {
      TooLargeToPrice(w, tx, id, s, token);
    }
  }

  lemma TooLargeToPrice(w: World, tx: Tx, id: nat, s: nat, token: Principal)
    requires s * BooksOf(w).TotalOf(SbtcPool(id)) > UINT_MAX
    ensures !Vault.SbtcRedeemed(w.funds, w.guard.approvedSbtc, tx, id, s, token, true).Ok?
  {
    assert w.funds.vault.TotalOf(SbtcPool(id)) == BooksOf(w).TotalOf(SbtcPool(id));
  }

  /** After any run off mainnet, whatever tokens were approved before: a holder of `b`
      sBTC shares can redeem any part of them exactly when the vault holds `b` units of
      the token approved now (and `b` times the pool's total fits a uint). */
  lemma HolderCanLeaveIff(
    deployer: Principal, holdings: Ledger.State, steps: seq<Step>, tx: Tx, id: nat, token: Principal)
    requires PossibleRun(Genesis(deployer, holdings), steps) && OffMainnet(steps) && FromOutside(tx)
    requires StateAt(Genesis(deployer, holdings), steps, |steps|).guard.approvedSbtc == Some(token)
    ensures var w := StateAt(Genesis(deployer, holdings), steps, |steps|);
            var b, total := BooksOf(w).SharesOf(SbtcPool(id), tx.sender), BooksOf(w).TotalOf(SbtcPool(id));
            (forall s :: 0 < s <= b ==> Executed(w, Redemption(tx, id, s, token)).Ok?)
            <==> b <= w.funds.ledger.TokensOf(token, VaultContract) && b * total <= UINT_MAX
  {
    hide Executed, StateAt, PossibleRun, Leavable, Redemption;
    ReachableLeavable(deployer, holdings, steps, token);
    HolderLeavesIff(StateAt(Genesis(deployer, holdings), steps, |steps|), tx, id, token);
  }

  lemma HolderLeavesIff(w: World, tx: Tx, id: nat, token: Principal)
    requires FromOutside(tx) && Leavable(w, token)
    ensures var b, total := BooksOf(w).SharesOf(SbtcPool(id), tx.sender), BooksOf(w).TotalOf(SbtcPool(id));
            (forall s :: 0 < s <= b ==> Executed(w, Redemption(tx, id, s, token)).Ok?)
            <==> b <= w.funds.ledger.TokensOf(token, VaultContract) && b * total <= UINT_MAX
  {
    hide Executed, Leavable, Redemption;
    var b, total := BooksOf(w).SharesOf(SbtcPool(id), tx.sender), BooksOf(w).TotalOf(SbtcPool(id));
    if b > 0 {
      RedeemsIff(w, tx, id, b, token);
    }
    forall s | 0 < s <= b
      ensures b <= w.funds.ledger.TokensOf(token, VaultContract) && b * total <= UINT_MAX ==>
                Executed(w, Redemption(tx, id, s, token)).Ok?
    {
      RedeemsIff(w, tx, id, s, token);
      Pricing.MulLe(s, b, total);
    }
  }

  // ---- Everybody ----

  /** The named holder redeems everything the holder has in the named pool. */
  function Exit(w: World, k: ShareKey, token: Principal, height: nat, chainId: nat): Step {
    Redemption(Tx(k.holder, k.holder, height, chainId), k.pool.vault, BooksOf(w).SharesOf(k.pool, k.holder), token)
  }

  /** One after the other, each of them redeems everything. */
  predicate AllLeave(w: World, exits: seq<ShareKey>, token: Principal, height: nat, chainId: nat)
    decreases |exits|
  {
    exits == [] ||
    var step := Exit(w, exits[0], token, height, chainId);
    Executed(w, step).Ok? && AllLeave(Next(w, step), exits[1..], token, height, chainId)
  }

  /** Some order of all holders of sBTC shares, each pool's holders named once. */
  ghost predicate Listing(b: Books, exits: seq<ShareKey>) {
    && (forall i, j :: 0 <= i < j < |exits| ==> exits[i] != exits[j])
    && (forall k :: k in exits <==> k.pool.asset == SBTC && b.SharesOf(k.pool, k.holder) > 0)
  }

  /** Every holder can be listed. */
  lemma {:induction false} SomeOrder(keys: set<ShareKey>) returns (exits: seq<ShareKey>)
    ensures forall i, j :: 0 <= i < j < |exits| ==> exits[i] != exits[j]
    ensures forall k :: k in exits <==> k in keys
  {
    if keys == {} {
      exits := [];
    } else {
      var k :| k in keys;
      var rest := SomeOrder(keys - {k});
      exits := [k] + rest;
    }
  }

  lemma HoldersCanBeListed(b: Books) returns (exits: seq<ShareKey>)
    ensures Listing(b, exits)
  {
    exits := SomeOrder(set k | k in b.balances && k.pool.asset == SBTC && b.balances[k] > 0);
    forall k
      ensures k in exits <==> k.pool.asset == SBTC && b.SharesOf(k.pool, k.holder) > 0
    {
      assert k == ShareKey(k.pool, k.holder);
    }
  }

  /** No sBTC pool is so large that pricing overflows. */
  ghost predicate Modest(b: Books) {
    forall pool: PoolKey :: pool.asset == SBTC ==> b.TotalOf(pool) < TWO64
  }

  lemma NobodyLeft(w: World)
    requires Sound(w) && Listing(BooksOf(w), [])
    ensures AllIdle(BooksOf(w), SBTC) == 0
  {
    var b := BooksOf(w);
    forall pool: PoolKey | pool in b.idle && OfAsset(SBTC)(pool)
      ensures b.idle[pool] == 0
    {
      assert PoolBalanced(b, pool);
      forall k | k in b.balances && HeldIn(pool)(k)
        ensures b.balances[k] == 0
      {
        assert k !in [];
        assert k == ShareKey(k.pool, k.holder);
      }
      SumIfZero(b.balances, HeldIn(pool));
    }
    SumIfZero(b.idle, OfAsset(SBTC));
  }

  /** One holder leaves with everything, or cannot; then less is owed by exactly that
      much, and the others are where they were. */
  lemma OneLeaves(w: World, k: ShareKey, token: Principal, height: nat, chainId: nat)
    requires Leavable(w, token) && Modest(BooksOf(w)) && chainId != 1
    requires k.pool.asset == SBTC && BooksOf(w).SharesOf(k.pool, k.holder) > 0
    ensures var step, b := Exit(w, k, token, height, chainId), BooksOf(w).SharesOf(k.pool, k.holder);
            var w' := Next(w, step);
            && b <= AllIdle(BooksOf(w), SBTC)
            && (Executed(w, step).Ok? <==> b <= w.funds.ledger.TokensOf(token, VaultContract))
            && (Executed(w, step).Ok? ==>
                  && Leavable(w', token)
                  && Becomes(BooksOf(w), Redeemed(k.pool, k.holder, b, b), BooksOf(w'))
                  && AllIdle(BooksOf(w'), SBTC) == AllIdle(BooksOf(w), SBTC) - b
                  && w'.funds.ledger.TokensOf(token, VaultContract) == w.funds.ledger.TokensOf(token, VaultContract) - b)
  {
    hide Executed, EffectOf, Becomes, Allowed, Applied;
    var step, b := Exit(w, k, token, height, chainId), BooksOf(w).SharesOf(k.pool, k.holder);
    ShareOfIdle(w, k);
    ProductsFit(b, BooksOf(w).TotalOf(k.pool));
    RedeemsIff(w, step.tx, k.pool.vault, b, token);
    if Executed(w, step).Ok? {
      ExitEffect(w, k, token, height, chainId);
      StepEffect(w, step);
      RedeemedIdle(BooksOf(w), EffectOf(w, step), BooksOf(Next(w, step)));
      ExitKeepsLeavable(w, step, token);
    }
  }

  lemma RedeemedIdle(b: Books, e: Effect, b': Books)
    requires Becomes(b, e, b') && e.Redeemed? && e.pool.asset == SBTC
    ensures AllIdle(b', SBTC) == AllIdle(b, SBTC) - e.amount
  {
    IdleFollowsFlow(b, e, SBTC);
    hide Allowed, Applied, AllIdle;
  }

  lemma ShareOfIdle(w: World, k: ShareKey)
    requires Sound(w) && NothingDeployed(w) && k.pool.asset == SBTC
    ensures BooksOf(w).SharesOf(k.pool, k.holder) <= BooksOf(w).TotalOf(k.pool)
    ensures BooksOf(w).SharesOf(k.pool, k.holder) <= AllIdle(BooksOf(w), SBTC)
  {
    assert PoolBalanced(BooksOf(w), k.pool);
    OffMainnetAllIdle(w, k.pool);
    SharesWithinSupply(BooksOf(w), k.pool, k.holder);
    SumIfBounds(BooksOf(w).idle, OfAsset(SBTC), k.pool);
  }

  lemma ExitEffect(w: World, k: ShareKey, token: Principal, height: nat, chainId: nat)
    requires w.guard.approvedSbtc == Some(token) && k.pool.asset == SBTC && k.holder != VaultContract
    requires Executed(w, Exit(w, k, token, height, chainId)).Ok?
    ensures var step, b := Exit(w, k, token, height, chainId), BooksOf(w).SharesOf(k.pool, k.holder);
            var r := Executed(w, step);
            && EffectOf(w, step) == Redeemed(k.pool, k.holder, b, r.value.1)
            && Next(w, step).funds.ledger.TokensOf(token, VaultContract) == w.funds.ledger.TokensOf(token, VaultContract) - r.value.1
  {
    hide Vault.SbtcRedeemed, Vault.Debited, Vault.PreviewRedeem;
    var step, b := Exit(w, k, token, height, chainId), BooksOf(w).SharesOf(k.pool, k.holder);
    var payout, debited := SbtcRedeemParts(w.funds, w.guard.approvedSbtc, step.tx, k.pool.vault, b, token, true);
    DebitedShape(w.funds, SbtcPool(k.pool.vault), k.holder, b, payout);
  }

  lemma ExitKeepsLeavable(w: World, step: Step, token: Principal)
    requires FromOutside(step.tx) && step.tx.chainId != 1 && step.call.ToPools? && Leavable(w, token)
    ensures Leavable(Next(w, step), token)
  {
    StepKeepsLeavable(w, step);
    hide Sound, NothingDeployed, HoldersOutside, PoolsExecuted;
  }

  /** No step off mainnet ends any of it, except that it may replace the token. */
  lemma StepKeepsLeavable(w: World, step: Step)
    requires FromOutside(step.tx) && step.tx.chainId != 1 && Sound(w) && NothingDeployed(w) && HoldersOutside(BooksOf(w))
    ensures Sound(Next(w, step)) && NothingDeployed(Next(w, step)) && HoldersOutside(BooksOf(Next(w, step)))
  {
    hide Executed, EffectOf, NothingDeployed, HoldersOutside, DirectoryExact, SharesAreListed, Balanced;
    StepKeepsBalanced(w, step);
    StepDirectory(w, step);
    DirectoryStepKeepsExact(w.funds.vault, Next(w, step).funds.vault, EffectOf(w, step));
    StepKeepsListed(w, step);
    StepDeploysNothing(w, step);
    StepKeepsHoldersOutside(w, step);
  }

  /** Who is left after one left. */
  lemma RestOfListing(b: Books, exits: seq<ShareKey>, b': Books)
    requires exits != [] && Listing(b, exits)
    requires var k := exits[0]; var s := b.SharesOf(k.pool, k.holder); Becomes(b, Redeemed(k.pool, k.holder, s, s), b')
    ensures Listing(b', exits[1..])
  {
    hide Pricing.ComputeRedeemAssets;
    var k := exits[0];
    assert k in exits;
    forall other: ShareKey
      ensures other in exits[1..] <==> other.pool.asset == SBTC && b'.SharesOf(other.pool, other.holder) > 0
    {
      assert other in exits <==> other == k || other in exits[1..];
      assert other == ShareKey(other.pool, other.holder);
    }
  }

  lemma RedeemedKeepsModest(b: Books, e: Effect, b': Books)
    requires Modest(b) && e.Redeemed? && Becomes(b, e, b')
    ensures Modest(b')
  {
    hide Pricing.ComputeRedeemAssets;
  }

  /** In whatever order they try, everybody gets out if and only if the vault's holding
      of the approved token covers all idle sBTC together. */
  lemma {:induction false} EverybodyLeavesIff(w: World, exits: seq<ShareKey>, token: Principal, height: nat, chainId: nat)
    requires Leavable(w, token) && Modest(BooksOf(w)) && chainId != 1
    requires Listing(BooksOf(w), exits)
    ensures AllLeave(w, exits, token, height, chainId)
       <==> AllIdle(BooksOf(w), SBTC) <= w.funds.ledger.TokensOf(token, VaultContract)
    decreases |exits|
  {
    hide Executed, Next, Leavable, Exit, Modest, Becomes;
    if exits == [] {
      assert Sound(w) by { LeavableIsSound(w, token); }
      NobodyLeft(w);
    } else {
      var step := Exit(w, exits[0], token, height, chainId);
      assert exits[0] in exits;
      OneLeaves(w, exits[0], token, height, chainId);
      if Executed(w, step).Ok? {
        var s := BooksOf(w).SharesOf(exits[0].pool, exits[0].holder);
        RestOfListing(BooksOf(w), exits, BooksOf(Next(w, step)));
        RedeemedKeepsModest(BooksOf(w), Redeemed(exits[0].pool, exits[0].holder, s, s), BooksOf(Next(w, step)));
        EverybodyLeavesIff(Next(w, step), exits[1..], token, height, chainId);
      }
    }
  }

  lemma LeavableIsSound(w: World, token: Principal)
    requires Leavable(w, token)
    ensures Sound(w)
  {
    hide Sound;
  }

  /** The exact condition under which an admin's replacement of the sBTC token traps
      nobody. After any run off mainnet and the replacement: each holder can redeem any
      part of the shares exactly when the vault holds that many units of the NEW token,
      and all of them can leave, in any order, exactly when it holds all idle sBTC. */
  lemma ReplacingTokenIffCovered(
    deployer: Principal, holdings: Ledger.State, steps: seq<Step>, admin: Tx, token: Principal,
    holder: Tx, id: nat, exits: seq<ShareKey>, height: nat, chainId: nat)
    requires PossibleRun(Genesis(deployer, holdings), steps) && OffMainnet(steps)
    requires FromOutside(admin) && admin.chainId != 1 && FromOutside(holder) && chainId != 1
    requires admin.sender == StateAt(Genesis(deployer, holdings), steps, |steps|).admin.admin
    requires Modest(BooksOf(StateAt(Genesis(deployer, holdings), steps, |steps|)))
    requires Listing(BooksOf(StateAt(Genesis(deployer, holdings), steps, |steps|)), exits)
    ensures var w := StateAt(Genesis(deployer, holdings), steps, |steps|);
            var w' := Next(w, Step(admin, ToGuard(RiskGuard.SetApprovedSbtcAsset(token))));
            var held := w.funds.ledger.TokensOf(token, VaultContract);
            var b := BooksOf(w).SharesOf(SbtcPool(id), holder.sender);
            && ((forall s :: 0 < s <= b ==> Executed(w', Redemption(holder, id, s, token)).Ok?) <==> b <= held)
            && (AllLeave(w', exits, token, height, chainId) <==> AllIdle(BooksOf(w), SBTC) <= held)
  {
    hide Executed, EffectOf, StateAt, PossibleRun, Leavable, Modest, Redemption, AllLeave, Listing, Sound, NothingDeployed, HoldersOutside;
    var w := StateAt(Genesis(deployer, holdings), steps, |steps|);
    ReachableSound(deployer, holdings, steps, |steps|);
    ReachableNothingDeployed(deployer, holdings, steps, |steps|);
    ReachableHoldersOutside(deployer, holdings, steps, |steps|);
    AfterReplacement(w, admin, token);
    var w' := Next(w, Step(admin, ToGuard(RiskGuard.SetApprovedSbtcAsset(token))));
    HolderLeavesIff(w', holder, id, token);
    EverybodyLeavesIff(w', exits, token, height, chainId);
    ModestProduct(w, ShareKey(SbtcPool(id), holder.sender));
  }

  lemma AfterReplacement(w: World, admin: Tx, token: Principal)
    requires FromOutside(admin) && admin.chainId != 1 && admin.sender == w.admin.admin
    requires Sound(w) && NothingDeployed(w) && HoldersOutside(BooksOf(w))
    ensures var w' := Next(w, Step(admin, ToGuard(RiskGuard.SetApprovedSbtcAsset(token))));
            Leavable(w', token) && w'.funds == w.funds
  {
    StepKeepsLeavable(w, Step(admin, ToGuard(RiskGuard.SetApprovedSbtcAsset(token))));
    hide Sound, NothingDeployed, HoldersOutside;
  }

  lemma ModestProduct(w: World, k: ShareKey)
    requires Sound(w) && NothingDeployed(w) && Modest(BooksOf(w)) && k.pool.asset == SBTC
    ensures BooksOf(w).SharesOf(k.pool, k.holder) * BooksOf(w).TotalOf(k.pool) <= UINT_MAX
  {
    ShareOfIdle(w, k);
    ProductsFit(BooksOf(w).SharesOf(k.pool, k.holder), BooksOf(w).TotalOf(k.pool));
  }
}
