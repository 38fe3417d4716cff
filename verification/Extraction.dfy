/** No extraction, over whole runs of the protocol: whatever else happens on the chain,
    a group that makes every move in a pool never takes out more than it put in and
    its shares were worth, at any price the pool may start from. */
module Extraction {
  import opened Accounting
  import opened Clarity
  import opened Effects
  import opened Engine
  import opened MapSums
  import opened Protocol
  import Pricing
  import Vault

  ghost function HeldByGroup(pool: PoolKey, group: set<Principal>): ShareKey -> bool {
    (k: ShareKey) => k.pool == pool && k.holder in group
  }

  ghost function GroupShares(b: Books, pool: PoolKey, group: set<Principal>): nat {
    SumIf(b.balances, HeldByGroup(pool, group))
  }

  /** What the group's shares are worth. */
  ghost function GroupClaim(b: Books, pool: PoolKey, group: set<Principal>): nat {
    Pricing.Claim(GroupShares(b, pool, group), b.SupplyOf(pool), b.TotalOf(pool))
  }

  /** What one step moved from the group into the pool, less what it moved out. */
  function NetOf(e: Effect, pool: PoolKey, group: set<Principal>): int {
    if e.Deposited? && e.pool == pool && e.holder in group then e.amount as int
    else if e.Redeemed? && e.pool == pool && e.holder in group then 0 - e.amount as int
    else 0
  }

  /** What the group paid into the pool in the first `n` steps, less what it was paid. */
  function NetPaid(w0: World, steps: seq<Step>, n: nat, pool: PoolKey, group: set<Principal>): int
    requires n <= |steps|
  {
    if n == 0 then 0
    else NetPaid(w0, steps, n - 1, pool, group) + NetOf(EffectOf(StateAt(w0, steps, n - 1), steps[n - 1]), pool, group)
  }

  /** A deposit into the pool or a redemption from it is one of the group's. */
  predicate OfGroup(e: Effect, pool: PoolKey, group: set<Principal>) {
    (e.Deposited? || e.Redeemed?) && e.pool == pool ==> e.holder in group
  }

  predicate StepOfGroup(w0: World, steps: seq<Step>, k: nat, pool: PoolKey, group: set<Principal>)
    requires k < |steps|
  {
    OfGroup(EffectOf(StateAt(w0, steps, k), steps[k]), pool, group)
  }

  ghost predicate OpenAt(w0: World, steps: seq<Step>, k: nat, pool: PoolKey)
    requires k <= |steps|
  {
    BooksOf(StateAt(w0, steps, k)).SupplyOf(pool) > 0
  }

  /** From `b0` to `b`: the shares outside the group are as they were, the price did
      not fall, and the pool's total moved by exactly the group's cash. */
  ghost predicate Conserved(b0: Books, b: Books, pool: PoolKey, group: set<Principal>, net: int) {
    && SharesAddUp(b, pool)
    && GroupShares(b, pool, group) <= b.SupplyOf(pool)
    && b.SupplyOf(pool) - GroupShares(b, pool, group) == b0.SupplyOf(pool) - GroupShares(b0, pool, group)
    && b0.TotalOf(pool) * b.SupplyOf(pool) <= b.TotalOf(pool) * b0.SupplyOf(pool)
    && b.TotalOf(pool) == b0.TotalOf(pool) + net
  }

  lemma GroupWithinSupply(b: Books, pool: PoolKey, group: set<Principal>)
    requires SharesAddUp(b, pool)
    ensures GroupShares(b, pool, group) <= b.SupplyOf(pool)
  {
    SumIfWider(b.balances, HeldByGroup(pool, group), HeldIn(pool));
  }

  /** An effect moves the group's shares by what its own moves minted or burned. */
  lemma AppliedToGroup(b: Books, e: Effect, pool: PoolKey, group: set<Principal>)
    requires Allowed(b, e) && OfGroup(e, pool, group)
    ensures GroupShares(Applied(b, e), pool, group) == GroupShares(b, pool, group)
         + (if e.Deposited? && e.pool == pool then e.shares else 0)
         - (if e.Redeemed? && e.pool == pool then e.shares else 0)
  {
    match e
    case Deposited(p, holder, amount, shares) =>
      hide Allowed, Applied, SumIf;
      DepositBecomes(b, p, holder, amount, shares);
      SumIfUpdate(b.balances, HeldByGroup(pool, group), ShareKey(p, holder), b.SharesOf(p, holder) + shares);
    case Redeemed(p, holder, shares, amount) =>
      hide Allowed, Applied, SumIf;
      RedemptionBounds(b, p, holder, shares, amount);
      RedemptionBecomes(b, p, holder, shares, amount);
      SumIfUpdate(b.balances, HeldByGroup(pool, group), ShareKey(p, holder), b.SharesOf(p, holder) - shares);
    case _ =>
      hide SumIf;
  }

  /** Price, supply and total of the pool after an effect. */
  lemma AppliedToPrice(b: Books, e: Effect, pool: PoolKey, group: set<Principal>)
    requires Allowed(b, e) && OfGroup(e, pool, group) && b.SupplyOf(pool) > 0
    ensures var b' := Applied(b, e);
            && b.TotalOf(pool) * b'.SupplyOf(pool) <= b'.TotalOf(pool) * b.SupplyOf(pool)
            && b'.TotalOf(pool) == b.TotalOf(pool) + NetOf(e, pool, group)
            && b'.SupplyOf(pool) == b.SupplyOf(pool)
               + (if e.Deposited? && e.pool == pool then e.shares else 0)
               - (if e.Redeemed? && e.pool == pool then e.shares else 0)
  {
    hide Pricing.ComputeDepositShares, Pricing.ComputeRedeemAssets;
    if e.Touches(pool) {
      match e
      case Deposited(_, _, amount, shares) =>
        Pricing.DepositKeepsPrice(b.SupplyOf(pool), b.TotalOf(pool), amount, Vault.MinInitialDepositFor(pool.asset));
      case Redeemed(_, _, shares, amount) => Pricing.RedeemKeepsPrice(shares, b.SupplyOf(pool), b.TotalOf(pool));
      case _ =>
    }
  }

  lemma AppliedConserves(b0: Books, b: Books, e: Effect, pool: PoolKey, group: set<Principal>, net: int)
    requires Conserved(b0, b, pool, group, net) && b.SupplyOf(pool) > 0
    requires Allowed(b, e) && OfGroup(e, pool, group)
    ensures Conserved(b0, Applied(b, e), pool, group, net + NetOf(e, pool, group))
  {
    hide Allowed, Applied, OfGroup, NetOf, SharesAddUp, GroupShares;
    var b' := Applied(b, e);
    AppliedKeepsShares(b, e, pool);
    AppliedToGroup(b, e, pool, group);
    AppliedToPrice(b, e, pool, group);
    GroupWithinSupply(b', pool, group);
    Pricing.PriceTransitive(b0.SupplyOf(pool), b0.TotalOf(pool), b.SupplyOf(pool), b.TotalOf(pool),
                            b'.SupplyOf(pool), b'.TotalOf(pool));
  }

  /** Over any run, from any state whose shares add up. */
  lemma {:induction false} RunConserves(w0: World, steps: seq<Step>, n: nat, pool: PoolKey, group: set<Principal>)
    requires PossibleRun(w0, steps) && n <= |steps| && SharesAddUp(BooksOf(w0), pool)
    requires forall k :: 0 <= k < n ==> StepOfGroup(w0, steps, k, pool, group) && OpenAt(w0, steps, k, pool)
    ensures Conserved(BooksOf(w0), BooksOf(StateAt(w0, steps, n)), pool, group, NetPaid(w0, steps, n, pool, group))
  {
    hide Executed, EffectOf, StateAt, Next, PossibleRun, Possible, Conserved, OfGroup, NetOf, SharesAddUp;
    if n == 0 {
      RunStart(w0, steps);
      NothingMoved(BooksOf(w0), pool, group);
    } else {
      var w := StateAt(w0, steps, n - 1);
      RunConserves(w0, steps, n - 1, pool, group);
      RunStep(w0, steps, n - 1);
      StepEffect(w, steps[n - 1]);
      assert StepOfGroup(w0, steps, n - 1, pool, group) && OpenAt(w0, steps, n - 1, pool);
      AppliedConserves(BooksOf(w0), BooksOf(w), EffectOf(w, steps[n - 1]), pool, group, NetPaid(w0, steps, n - 1, pool, group));
    }
  }

  lemma NothingMoved(b: Books, pool: PoolKey, group: set<Principal>)
    requires SharesAddUp(b, pool)
    ensures Conserved(b, b, pool, group, 0)
  {
    GroupWithinSupply(b, pool, group);
  }

  /** While anybody outside the group holds a share, the group cannot empty the pool. */
  lemma {:induction false} OutsiderKeepsPoolOpen(w0: World, steps: seq<Step>, n: nat, pool: PoolKey, group: set<Principal>)
    requires PossibleRun(w0, steps) && n <= |steps| && SharesAddUp(BooksOf(w0), pool)
    requires GroupShares(BooksOf(w0), pool, group) < BooksOf(w0).SupplyOf(pool)
    requires forall k :: 0 <= k < n ==> StepOfGroup(w0, steps, k, pool, group)
    ensures forall k :: 0 <= k <= n ==> OpenAt(w0, steps, k, pool)
  {
    hide Executed, EffectOf, StateAt, Next, PossibleRun, Possible, StepOfGroup, SharesAddUp, GroupShares;
    if n == 0 {
      RunStart(w0, steps);
    } else {
      OutsiderKeepsPoolOpen(w0, steps, n - 1, pool, group);
      RunConserves(w0, steps, n, pool, group);
    }
  }

  /** No extraction: as long as the supply stays positive, the group's cash plus what
      its shares are worth never grows; with as many shares as it began with, it was
      paid no more than it paid. */
  lemma GroupNeverExtracts(w0: World, steps: seq<Step>, n: nat, pool: PoolKey, group: set<Principal>)
    requires PossibleRun(w0, steps) && n <= |steps| && SharesAddUp(BooksOf(w0), pool)
    requires forall k :: 0 <= k < n ==> StepOfGroup(w0, steps, k, pool, group)
    requires forall k :: 0 <= k <= n ==> OpenAt(w0, steps, k, pool)
    ensures var b0, b := BooksOf(w0), BooksOf(StateAt(w0, steps, n));
            var net := NetPaid(w0, steps, n, pool, group);
            && GroupClaim(b, pool, group) - net <= GroupClaim(b0, pool, group)
            && (GroupShares(b, pool, group) == GroupShares(b0, pool, group) ==> net >= 0)
  {
    hide Executed, EffectOf, StateAt, Next, PossibleRun, Possible, StepOfGroup, SharesAddUp, GroupShares, NetPaid, Pricing.Claim;
    var b0, b := BooksOf(w0), BooksOf(StateAt(w0, steps, n));
    RunStart(w0, steps);
    assert OpenAt(w0, steps, 0, pool) && OpenAt(w0, steps, n, pool);
    RunConserves(w0, steps, n, pool, group);
    GroupWithinSupply(b0, pool, group);
    Pricing.GroupValue(b0.SupplyOf(pool), b0.TotalOf(pool), b.SupplyOf(pool), b.TotalOf(pool),
                       b0.SupplyOf(pool) - GroupShares(b0, pool, group));
    if b.SupplyOf(pool) == b0.SupplyOf(pool) {
      Pricing.CancelLe(b0.TotalOf(pool), b.TotalOf(pool), b0.SupplyOf(pool));
    }
  }
}
