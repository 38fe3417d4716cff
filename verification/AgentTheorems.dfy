/** AI proposes, Clarity disposes - and never rejects a fresh proposal over its
    numbers: the agent's floor and ceiling arithmetic meets the contract's floored
    checks for all balances, caps and allocations. */
module AgentTheorems {
  import opened Agent
  import opened Clarity
  import opened Effects
  import opened Engine
  import opened Numbers
  import Accounting
  import Gate
  import Ledger
  import Pricing
  import Protocol
  import RiskGuard
  import StrategyRegistry
  import Traces
  import Vault

  // ---- Sizing ----

  /** The limits all strategies share, without any rounding, for an added amount `a`. */
  predicate SharedRoom(v: VaultSnapshot, a: nat) {
    a <= v.idle && (v.idle - a) * BPS >= v.risk.minIdleBps * v.total && a <= v.risk.maxTx
  }

  /** The limits of one strategy, without any rounding. */
  predicate OwnRoom(v: VaultSnapshot, s: StrategySnapshot, a: nat) {
    var current := Lookup(v.allocations, s.id);
    && (current + a) * BPS <= v.risk.maxExposureBps * v.total
    && (current + a) * BPS <= s.maxAllocationBps * v.total
  }

  predicate FitsExactly(v: VaultSnapshot, s: StrategySnapshot, a: nat) {
    SharedRoom(v, a) && OwnRoom(v, s, a)
  }

  /** An amount is within a floored share of the total exactly when the unrounded share allows it. */
  lemma WithinShare(x: nat, bps: nat, total: nat)
    ensures x <= total * bps / BPS <==> x * BPS <= bps * total
  {
    Pricing.FloorBounds(total * bps, BPS);
  }

  /** A remainder is above the ceiling of the floor exactly when the unrounded share allows it. */
  lemma AboveCeiling(x: nat, bps: nat, total: nat)
    ensures x >= (total * bps + BPS - 1) / BPS <==> x * BPS >= bps * total
  {
    Pricing.FloorBounds(total * bps + BPS - 1, BPS);
  }

  /** Any positive amount up to the sized one fits, and no larger amount does: the
      agent's amount is the largest that respects the limits without rounding. */
  lemma SizedAmountIsMaximal(v: VaultSnapshot, s: StrategySnapshot, a: nat)
    requires a > 0
    ensures FitsExactly(v, s, a) <==> a <= SizedAmount(v, s)
  {
    var current := Lookup(v.allocations, s.id);
    WithinShare(current + a, v.risk.maxExposureBps, v.total);
    WithinShare(current + a, s.maxAllocationBps, v.total);
    if a <= v.idle {
      AboveCeiling(v.idle - a, v.risk.minIdleBps, v.total);
    }
    MinimumOfRooms(v, s, a);
  }

  lemma MinimumOfRooms(v: VaultSnapshot, s: StrategySnapshot, a: nat)
    requires a > 0
    ensures var current := Lookup(v.allocations, s.id);
            a <= SizedAmount(v, s) <==>
              && a <= v.idle && v.idle - a >= (v.total * v.risk.minIdleBps + BPS - 1) / BPS
              && current + a <= v.total * v.risk.maxExposureBps / BPS
              && current + a <= v.total * s.maxAllocationBps / BPS
              && a <= v.risk.maxTx
  {
    var reserve := (v.total * v.risk.minIdleBps + BPS - 1) / BPS;
    var exposure, protocol := v.total * v.risk.maxExposureBps / BPS, v.total * s.maxAllocationBps / BPS;
    assert IdleAfterReserve(v) == Monus(v.idle, reserve);
    assert MaxExposureAmount(v) == exposure;
  }

  /** The ecosystem analysis sizes a new position exactly as the decision engine
      would size a strategy that holds nothing and has no cap of its own. */
  lemma SizeDeployableAgrees(v: VaultSnapshot, s: StrategySnapshot)
    requires Lookup(v.allocations, s.id) == 0 && s.maxAllocationBps == BPS && v.idle <= v.total
    ensures SizeDeployable(v) == SizedAmount(v, s)
  {
    MultipleOf(v.total, BPS);
  }

  /** The decision, without any rounding: REBALANCE exactly when nothing forbids it
      and at least one unit fits the first active strategy of the asset. */
  lemma RebalanceIffSomethingFits(v: VaultSnapshot, ctx: Context, window: nat)
    ensures var candidates := ForAsset(ctx.strategies, v.asset);
            Analyze(v, ctx, window).decision == REBALANCE <==>
              && !ctx.protocolPaused && v.supportsAsset && !v.paused
              && candidates != [] && FitsExactly(v, candidates[0], 1)
  {
    var candidates := ForAsset(ctx.strategies, v.asset);
    hide ForAsset, FitsExactly, SizedAmount;
    if candidates != [] {
      SizedAmountIsMaximal(v, candidates[0], 1);
      SizedNeedsRoom(v, candidates[0]);
    }
  }

  /** Only the first active strategy is ever considered, so a HOLD can hide an
      allocation into another one: exactly when the first has no room of its own left
      (without exceeding the owner's cap), another has, and the shared limits allow it. */
  lemma HoldHidesAllocationIff(v: VaultSnapshot, ctx: Context, window: nat)
    requires !ctx.protocolPaused && v.supportsAsset && !v.paused
    ensures var c := ForAsset(ctx.strategies, v.asset);
            Analyze(v, ctx, window).decision == HOLD && (exists k :: 0 <= k < |c| && FitsExactly(v, c[k], 1)) <==>
              && c != [] && SharedRoom(v, 1) && !OwnRoom(v, c[0], 1)
              && Lookup(v.allocations, c[0].id) * BPS <= v.risk.maxExposureBps * v.total
              && (exists k :: 0 < k < |c| && OwnRoom(v, c[k], 1))
  {
    var c := ForAsset(ctx.strategies, v.asset);
    RebalanceIffSomethingFits(v, ctx, window);
    if c != [] {
      if v.total > 0 {
        ReduceIffOverExposed(v, ctx, window, 0);
      }
      forall k | 0 <= k < |c| && OwnRoom(v, c[k], 1)
        ensures v.total > 0
      {
        RoomNeedsTotal(v, c[k]);
      }
    }
    hide ForAsset, OwnRoom, SharedRoom, SizedAmount, MaxExposureAmount;
  }

  lemma RoomNeedsTotal(v: VaultSnapshot, s: StrategySnapshot)
    requires OwnRoom(v, s, 1)
    ensures v.total > 0
  {
  }

  /** Two active strategies, the first at its cap: HOLD, though 1000 units fit the second. */
  lemma HoldCanHideAllocation()
    ensures var first, second := StrategySnapshot(1, STX, 3000), StrategySnapshot(2, STX, 5000);
            var ctx := Context(1, false, [first, second], false, false);
            var v := VaultSnapshot(1, Wallet(1), true, false, STX, 7000, 10000, map[1 := 3000, 2 := 0],
                                   AssetRisk(5000, 1000, 500, 1000, false, 0));
            Analyze(v, ctx, 100).decision == HOLD && FitsExactly(v, second, 1000)
  {
    var first, second := StrategySnapshot(1, STX, 3000), StrategySnapshot(2, STX, 5000);
    assert [first, second][1..] == [second];
  }

  lemma SizedNeedsRoom(v: VaultSnapshot, s: StrategySnapshot)
    ensures SizedAmount(v, s) > 0 ==> v.total > 0 && v.idle > 0 && Lookup(v.allocations, s.id) <= MaxExposureAmount(v)
  {
  }

  /** REDUCE_EXPOSURE exactly when the strategy holds more than the unrounded cap,
      and then the advised amount is the least whose removal respects it. */
  lemma ReduceIffOverExposed(v: VaultSnapshot, ctx: Context, window: nat, a: nat)
    requires !ctx.protocolPaused && v.supportsAsset && !v.paused && v.total > 0 && ForAsset(ctx.strategies, v.asset) != []
    ensures var current := Lookup(v.allocations, ForAsset(ctx.strategies, v.asset)[0].id);
            var r := Analyze(v, ctx, window);
            && (r.decision == REDUCE_EXPOSURE <==> current * BPS > v.risk.maxExposureBps * v.total)
            && (r.decision == REDUCE_EXPOSURE && a <= current ==>
                  ((current - a) * BPS <= v.risk.maxExposureBps * v.total <==> a >= r.amount.value))
  {
    var current := Lookup(v.allocations, ForAsset(ctx.strategies, v.asset)[0].id);
    hide ForAsset, SizedAmount;
    WithinShare(current, v.risk.maxExposureBps, v.total);
    if a <= current {
      WithinShare(current - a, v.risk.maxExposureBps, v.total);
    }
  }

  /** Which branch decides, without any rounding. */
  lemma ReasonIsExact(v: VaultSnapshot, ctx: Context, window: nat)
    ensures var c := ForAsset(ctx.strategies, v.asset);
            Analyze(v, ctx, window).reason ==
              if ctx.protocolPaused then ProtocolPaused
              else if !v.supportsAsset then AssetNotSupported
              else if v.paused then VaultPaused
              else if v.total == 0 then EmptyPool
              else if c == [] then NoStrategy
              else if Lookup(v.allocations, c[0].id) * 10000 > v.risk.maxExposureBps * v.total then OverExposed
              else if v.idle == 0 then NothingIdle
              else if !FitsExactly(v, c[0], 1) then AtLimits
              else IdleCapital
  {
    hide ForAsset, FitsExactly, SizedAmount;
    var c := ForAsset(ctx.strategies, v.asset);
    if c != [] {
      WithinShare(Lookup(v.allocations, c[0].id), v.risk.maxExposureBps, v.total);
      SizedAmountIsMaximal(v, c[0], 1);
    }
  }

  /** The other fields of a recommendation. */
  lemma RecommendationFields(v: VaultSnapshot, ctx: Context, window: nat)
    ensures var c, r := ForAsset(ctx.strategies, v.asset), Analyze(v, ctx, window);
            && r.asset == v.asset
            && (r.decision == HOLD ==> r.strategy == None && r.amount == None)
            && (r.decision != HOLD ==> c != [] && r.strategy == Some(c[0].id) && r.amount.Some? && r.amount.value > 0)
            && (r.decision == REBALANCE ==>
                  && r.amount == Some(SizedAmount(v, c[0])) && r.maxSlippageBps == Some(v.risk.maxSlippageBps)
                  && r.deadline == Some(ctx.height + window))
            && (r.decision != REBALANCE ==> r.maxSlippageBps == None && r.deadline == None)
  {
    hide ForAsset, SizedAmount;
  }

  /** sizeDeployable is the largest amount within the shared limits and the owner's cap. */
  lemma SizeDeployableIsMaximal(v: VaultSnapshot, a: nat)
    requires a > 0
    ensures a <= SizeDeployable(v) <==> SharedRoom(v, a) && a * 10000 <= v.risk.maxExposureBps * v.total
  {
    WithinShare(a, v.risk.maxExposureBps, v.total);
    if a <= v.idle {
      AboveCeiling(v.idle - a, v.risk.minIdleBps, v.total);
    }
    DeployableRooms(v, a);
  }

  lemma DeployableRooms(v: VaultSnapshot, a: nat)
    requires a > 0
    ensures a <= SizeDeployable(v) <==>
              && a <= v.idle && v.idle - a >= (v.total * v.risk.minIdleBps + BPS - 1) / BPS
              && a <= v.total * v.risk.maxExposureBps / BPS && a <= v.risk.maxTx
  {
    assert IdleAfterReserve(v) == Monus(v.idle, (v.total * v.risk.minIdleBps + BPS - 1) / BPS);
    assert MaxExposureAmount(v) == v.total * v.risk.maxExposureBps / BPS;
  }

  // ---- What the agent sees and shows ----

  /** The ids of a list of strategies only grow. */
  ghost predicate Increasing(c: seq<StrategySnapshot>) {
    forall j, k :: 0 <= j < k < |c| ==> c[j].id < c[k].id
  }

  lemma {:induction false} ForAssetExact(strategies: seq<StrategySnapshot>, asset: Asset)
    requires Increasing(strategies)
    ensures Increasing(ForAsset(strategies, asset))
    ensures forall s :: s in ForAsset(strategies, asset) <==> s in strategies && s.asset == asset
  {
    if strategies != [] {
      var rest := strategies[1..];
      assert forall s :: s in strategies <==> s == strategies[0] || s in rest;
      assert forall s :: s in rest ==> strategies[0].id < s.id;
      ForAssetExact(rest, asset);
      ListedAfter(strategies[0], ForAsset(rest, asset));
    }
  }

  lemma ListedAfter(first: StrategySnapshot, rest: seq<StrategySnapshot>)
    requires Increasing(rest) && forall s :: s in rest ==> first.id < s.id
    ensures Increasing([first] + rest)
  {
  }

  /** The strategies found are the active ones from `id` up to the probe's limit, each
      with the chain's asset and cap, in the order of their ids. */
  lemma {:induction false} ActiveFromExact(r: StrategyRegistry.State, id: nat)
    requires StrategyRegistry.Valid(r) && id >= 1
    ensures Increasing(ActiveFrom(r, id))
    ensures forall s :: s in ActiveFrom(r, id) <==>
              && id <= s.id <= 25 && s.id in r.strategies && r.strategies[s.id].active
              && s.asset == r.strategies[s.id].asset && s.maxAllocationBps == r.strategies[s.id].maxAllocationBps
    decreases MAX_STRATEGY_PROBE + 1 - id
  {
    if id <= MAX_STRATEGY_PROBE && id in r.strategies {
      ActiveFromStep(r, id);
      ActiveFromExact(r, id + 1);
      hide ActiveFrom, NearestDouble;
      ListedAfter(StrategySnapshot(id, r.strategies[id].asset, r.strategies[id].maxAllocationBps), ActiveFrom(r, id + 1));
    }
  }

  lemma ActiveFromStep(r: StrategyRegistry.State, id: nat)
    requires StrategyRegistry.Valid(r) && 1 <= id <= MAX_STRATEGY_PROBE && id in r.strategies
    ensures var s := r.strategies[id];
            ActiveFrom(r, id)
            == (if s.active then [StrategySnapshot(id, s.asset, s.maxAllocationBps)] else []) + ActiveFrom(r, id + 1)
  {
    SmallIsExact(r.strategies[id].maxAllocationBps);
    hide NearestDouble;
  }

  /** What the agent chooses from: exactly the active strategies for the asset among the
      first 25, lowest id first, each with what the pool has in it. */
  lemma CandidatesAreExact(w: World, height: nat, chainId: nat, v: VaultSnapshot)
    requires StrategyRegistry.Valid(w.registry)
    requires SnapshotOf(w, ContextOf(w, height, chainId), v.vault, v.asset) == Some(v)
    ensures var c := ForAsset(ContextOf(w, height, chainId).strategies, v.asset);
            && Increasing(c)
            && (forall id :: (exists s :: s in c && s.id == id) <==>
                  1 <= id <= 25 && id in w.registry.strategies && w.registry.strategies[id].active
                  && w.registry.strategies[id].asset == v.asset)
            && (forall s :: s in c ==>
                  && s.id in w.registry.strategies && s.maxAllocationBps == w.registry.strategies[s.id].maxAllocationBps
                  && Lookup(v.allocations, s.id)
                     == Lookup(w.funds.vault.allocations, AllocationKey(PoolKey(v.vault, v.asset), s.id)))
  {
    hide ActiveFrom, ForAsset, NearestDouble;
    var ctx := ContextOf(w, height, chainId);
    var c := ForAsset(ctx.strategies, v.asset);
    ActiveFromExact(w.registry, 1);
    ForAssetExact(ctx.strategies, v.asset);
    forall id | 1 <= id <= 25 && id in w.registry.strategies && w.registry.strategies[id].active
                && w.registry.strategies[id].asset == v.asset
      ensures exists s :: s in c && s.id == id
    {
      assert StrategySnapshot(id, v.asset, w.registry.strategies[id].maxAllocationBps) in c;
    }
  }

  lemma {:induction false} SharesAreExact(v: VaultSnapshot, strategies: seq<StrategySnapshot>, added: map<nat, nat>)
    requires v.total > 0
    ensures var shown := Shares(v, strategies, added);
            && |shown| == |strategies|
            && forall k :: 0 <= k < |strategies| ==>
                 && shown[k].id == strategies[k].id
                 && shown[k].amount == Lookup(v.allocations, strategies[k].id) + Lookup(added, strategies[k].id)
                 && Accounting.IsFloor(shown[k].bps, shown[k].amount * 10000, v.total)
  {
    hide Accounting.IsFloor;
    if strategies != [] {
      SharesAreExact(v, strategies[1..], added);
      BpsIsFloor(Lookup(v.allocations, strategies[0].id) + Lookup(added, strategies[0].id), v.total);
    }
  }

  lemma BpsIsFloor(part: nat, total: nat)
    requires total > 0
    ensures Accounting.IsFloor(BpsOf(part, total), part * 10000, total)
  {
    Pricing.FloorBounds(part * 10000, total);
  }

  /** The view shows `idle` units idle and, for each candidate, its allocation with
      `amount` more in the strategy `into`, all as floored shares of the pool. */
  ghost predicate Shows(
    view: AllocationView, v: VaultSnapshot, c: seq<StrategySnapshot>, idle: nat, into: nat, amount: nat)
  {
    && Accounting.IsFloor(view.idleBps, idle * 10000, v.total)
    && |view.strategies| == |c|
    && forall k :: 0 <= k < |c| ==>
         var shown := view.strategies[k];
         && shown.id == c[k].id
         && shown.amount == Lookup(v.allocations, c[k].id) + (if c[k].id == into then amount else 0)
         && Accounting.IsFloor(shown.bps, shown.amount * 10000, v.total)
  }

  /** The current allocation is shown exactly for a pool that holds something, the
      proposed one exactly for a REBALANCE; they differ by the proposed move alone. */
  lemma AllocationViewsAreExact(v: VaultSnapshot, ctx: Context, window: nat)
    ensures var c, r := ForAsset(ctx.strategies, v.asset), Analyze(v, ctx, window);
            var current, proposed := CurrentAllocation(v, ctx), ProposedAllocation(v, ctx, r);
            && (current.Some? <==> v.total > 0)
            && (current.Some? ==> Shows(current.value, v, c, v.idle, 0, 0))
            && (proposed.Some? <==> r.decision == REBALANCE)
            && (proposed.Some? ==>
                  && r.strategy.Some? && r.amount.Some? && r.amount.value <= v.idle
                  && Shows(proposed.value, v, c, v.idle - r.amount.value, r.strategy.value, r.amount.value))
  {
    hide ForAsset, SizedAmount, Shares, BpsOf, Accounting.IsFloor;
    var c, r := ForAsset(ctx.strategies, v.asset), Analyze(v, ctx, window);
    if v.total > 0 {
      SharesAreExact(v, c, map[]);
      BpsIsFloor(v.idle, v.total);
    }
    if r.decision == REBALANCE {
      SizedWithinIdle(v, c[0]);
      SharesAreExact(v, c, map[r.strategy.value := r.amount.value]);
      BpsIsFloor(v.idle - r.amount.value, v.total);
    }
  }

  lemma SizedWithinIdle(v: VaultSnapshot, s: StrategySnapshot)
    ensures SizedAmount(v, s) <= v.idle
  {
  }

  // ---- The strategy a proposal names ----

  lemma {:induction false} ForAssetFirst(strategies: seq<StrategySnapshot>, asset: Asset)
    requires ForAsset(strategies, asset) != []
    ensures ForAsset(strategies, asset)[0].asset == asset && ForAsset(strategies, asset)[0] in strategies
  {
    if strategies[0].asset != asset {
      ForAssetFirst(strategies[1..], asset);
    }
  }

  lemma {:induction false} ActiveFromIsActive(r: StrategyRegistry.State, id: nat, s: StrategySnapshot)
    requires s in ActiveFrom(r, id)
    ensures id <= s.id <= MAX_STRATEGY_PROBE && s.id in r.strategies
    ensures var entry := r.strategies[s.id];
            entry.active && entry.asset == s.asset && NearestDouble(entry.maxAllocationBps) == s.maxAllocationBps
    decreases MAX_STRATEGY_PROBE + 1 - id
  {
    var entry := r.strategies[id];
    if s !in ActiveFrom(r, id + 1) {
      assert s == StrategySnapshot(id, entry.asset, NearestDouble(entry.maxAllocationBps));
    } else {
      ActiveFromIsActive(r, id + 1, s);
    }
  }

  /** The proposed strategy is registered and active for the asset, and the
      snapshot's numbers about it are the chain's. */
  lemma ProposedStrategy(w: World, ctx: Context, v: VaultSnapshot)
    requires StrategyRegistry.Valid(w.registry) && ctx.strategies == ActiveFrom(w.registry, 1)
    requires ForAsset(ctx.strategies, v.asset) != [] && SnapshotOf(w, ctx, v.vault, v.asset) == Some(v)
    ensures var s := ForAsset(ctx.strategies, v.asset)[0];
            && 0 < s.id <= MAX_STRATEGY_PROBE
            && StrategyRegistry.IsStrategyActive(w.registry, s.id)
            && StrategyRegistry.StrategyAsset(w.registry, s.id) == Some(v.asset)
            && StrategyRegistry.MaxAllocationBps(w.registry, s.id) == s.maxAllocationBps
            && Lookup(v.allocations, s.id) == w.funds.vault.AllocationOf(PoolKey(v.vault, v.asset), s.id)
  {
    var candidates := ForAsset(ctx.strategies, v.asset);
    ForAssetFirst(ctx.strategies, v.asset);
    ActiveFromIsActive(w.registry, 1, candidates[0]);
    SmallIsExact(w.registry.strategies[candidates[0].id].maxAllocationBps);
    assert candidates[0] in candidates;
  }

  // ---- Proposals pass ----

  /** The contract's floored checks accept every amount that fits without rounding. */
  lemma FitsPassesShares(total: nat, idle: nat, current: nat, a: nat, maxExposure: nat, cap: nat, minIdle: nat)
    requires total > 0 && 0 < a <= idle
    requires (idle - a) * BPS >= minIdle * total
    requires (current + a) * BPS <= maxExposure * total
    requires (current + a) * BPS <= cap * total
    ensures (current + a) * BPS / total <= maxExposure
    ensures (current + a) * BPS / total <= cap
    ensures (idle - a) * BPS / total >= minIdle
  {
    Pricing.FloorIsLargest((idle - a) * BPS, total, minIdle);
    Pricing.MulLt(maxExposure, maxExposure + 1, total);
    Pricing.MulLt(cap, cap + 1, total);
    Pricing.FloorIsBelow((current + a) * BPS, total, maxExposure + 1);
    Pricing.FloorIsBelow((current + a) * BPS, total, cap + 1);
  }

  /** Everything the theorem below speaks about. */
  ghost predicate Proposes(
    w: World, height: nat, chainId: nat, window: nat, v: VaultSnapshot, r: Recommendation, i: Intent)
  {
    var ctx := ContextOf(w, height, chainId);
    && SnapshotOf(w, ctx, v.vault, v.asset) == Some(v)
    && r == Analyze(v, ctx, window)
    && r.decision == REBALANCE
    && BuildIntent(r, v) == Some(i)
  }

  /** From any recommendation: an intent is built exactly if it is a REBALANCE with all
      its fields and a positive amount, and then with those fields. */
  lemma BuildIntentIsExact(r: Recommendation, v: VaultSnapshot)
    ensures var i := BuildIntent(r, v);
            && (i.Some? <==>
                  && r.decision == REBALANCE && r.strategy.Some? && r.maxSlippageBps.Some? && r.deadline.Some?
                  && r.amount.Some? && r.amount.value > 0)
            && (i.Some? ==>
                  i.value == Intent(v.vault, r.strategy.value, r.asset, r.amount.value, r.maxSlippageBps.value,
                                    NearestDouble(v.risk.lastNonce + 1), r.deadline.value))
  {
    hide NearestDouble;
  }

  /** Every REBALANCE of the decision engine becomes an intent. */
  lemma RebalanceBuilds(v: VaultSnapshot, ctx: Context, window: nat)
    ensures BuildIntent(Analyze(v, ctx, window), v).Some? <==> Analyze(v, ctx, window).decision == REBALANCE
  {
  }

  /** What becomes of the proposal `i`: refused with u308 if its nonce did not advance;
      not even a call if its nonce is no uint; otherwise refused only while the
      cooldown lasts (u309, or an abort if its end is past UINT_MAX), or aborted on a
      pool above UINT_MAX/10000 units; otherwise a call whose answer is `(ok ...)`. */
  ghost predicate PassesUpToTime(w: World, v: VaultSnapshot, i: Intent, tx: Tx) {
    && v.vault in w.guard.configs
    && var cfg, verdict := w.guard.configs[v.vault], Evaluate(w, tx, i);
       && i.nonce == Successor(cfg.lastNonce)
       && if !Advances(cfg.lastNonce) then verdict == Err(308)
          else if Successor(cfg.lastNonce) > UINT_MAX then !Encodable(i)
          else if !RiskGuard.CooldownPassed(cfg, tx.height).Ok?
          then verdict == RiskGuard.CooldownPassed(cfg, tx.height).PropagateFailure()
          else if verdict == Abort then v.total * BPS > UINT_MAX
          else
            && verdict == Ok(tx.sender == v.owner)
            && (Encodable(i) <==> i.vault <= UINT_MAX && i.deadline <= UINT_MAX)
  }

  /** Who would submit for the vault: the configured executor, if the vault is
      autonomous and the executor's registry entry active, otherwise the owner. */
  ghost predicate WouldSubmit(w: World, vault: nat, executor: Option<Principal>, sender: Principal)
    requires vault in w.guard.configs && vault in w.funds.vault.vaults
  {
    if && w.guard.configs[vault].autonomous && executor.Some?
       && executor.value in w.agents.executors && w.agents.executors[executor.value].active
    then sender == executor.value
    else sender == w.funds.vault.vaults[vault].owner
  }

  /** The heart of "AI proposes, Clarity disposes": a REBALANCE proposed from a
      snapshot of the current state and evaluated as the identity the pipeline
      picks, up to the deadline, is never refused over its numbers; only the
      cooldown can refuse it, and, before that, a nonce that left the exact range of
      JavaScript numbers and did not advance, or left the range of uints. */
  lemma ProposalsPass(
    w: World, height: nat, chainId: nat, window: nat, v: VaultSnapshot, r: Recommendation, i: Intent,
    executor: Option<Principal>, tx: Tx)
    requires Gate.Configured(w) && Accounting.Balanced(BooksOf(w)) && IsValidAsset(v.asset)
    requires Proposes(w, height, chainId, window, v, r, i)
    requires v.vault in w.guard.configs && v.vault in w.funds.vault.vaults
    requires WouldSubmit(w, v.vault, executor, tx.sender) && height <= tx.height <= height + window
    ensures PassesUpToTime(w, v, i, tx)
  {
    hide Proposes, Analyze, BuildIntent, SnapshotOf, ContextOf, ActiveFrom, ForAsset, RiskGuard.CheckIntent, SizedAmount, FitsExactly, NearestDouble, Advances;
    var ctx := ContextOf(w, height, chainId);
    ProposalShape(w, height, chainId, window, v, r, i);
    ProposalContext(w, height, chainId, window, v, r, i);
    var s := ForAsset(ctx.strategies, v.asset)[0];
    ProposedStrategy(w, ctx, v);
    ExactRisk(w, ctx, v);
    SizedAmountIsMaximal(v, s, i.amount);
    SnapshotIsFaithful(w, ctx, v);
    var isOwner := tx.sender == v.owner;
    assert Accounting.PoolBalanced(BooksOf(w), i.Pool());
    ProposalCheck(w.guard, tx.height, RequestOf(i, isOwner), ReadingOf(w, i), v, s);
    if Evaluate(w, tx, i).Ok? {
      CheckedAmount(w.guard, w.admin.paused, tx.height, RequestOf(i, isOwner), ReadingOf(w, i));
    }
  }

  /** After any run of the deployed protocol. */
  lemma ReachableProposalsPass(
    deployer: Principal, holdings: Ledger.State, steps: seq<Protocol.Step>,
    height: nat, chainId: nat, window: nat, v: VaultSnapshot, r: Recommendation, i: Intent,
    executor: Option<Principal>, tx: Tx)
    requires Protocol.PossibleRun(Protocol.Genesis(deployer, holdings), steps) && IsValidAsset(v.asset)
    requires var w := Protocol.StateAt(Protocol.Genesis(deployer, holdings), steps, |steps|);
             && Proposes(w, height, chainId, window, v, r, i)
             && v.vault in w.guard.configs && v.vault in w.funds.vault.vaults
             && WouldSubmit(w, v.vault, executor, tx.sender) && height <= tx.height <= height + window
    ensures PassesUpToTime(Protocol.StateAt(Protocol.Genesis(deployer, holdings), steps, |steps|), v, i, tx)
  {
    hide *;
    Accounting.ReachableBalanced(deployer, holdings, steps, |steps|);
    Gate.ReachableConfigured(deployer, holdings, steps, |steps|);
    ProposalsPass(Protocol.StateAt(Protocol.Genesis(deployer, holdings), steps, |steps|),
                  height, chainId, window, v, r, i, executor, tx);
  }

  lemma SnapshotIsFaithful(w: World, ctx: Context, v: VaultSnapshot)
    requires SnapshotOf(w, ctx, v.vault, v.asset) == Some(v)
    ensures v.vault in w.funds.vault.vaults && v.vault in w.guard.configs
    ensures var info, pool := w.funds.vault.vaults[v.vault], PoolKey(v.vault, v.asset);
            && v.owner == info.owner && v.paused == info.paused
            && v.supportsAsset == Vault.SupportsAsset(w.funds.vault, pool)
            && v.idle == w.funds.vault.IdleOf(pool) && v.total == w.funds.vault.TotalOf(pool)
            && v.risk.autonomous == w.guard.configs[v.vault].autonomous
  {
    hide NearestDouble;
  }

  /** The snapshot and the strategies a proposal was made from. */
  lemma ProposalContext(w: World, height: nat, chainId: nat, window: nat, v: VaultSnapshot, r: Recommendation, i: Intent)
    requires Proposes(w, height, chainId, window, v, r, i)
    ensures var ctx := ContextOf(w, height, chainId);
            ctx.strategies == ActiveFrom(w.registry, 1) && SnapshotOf(w, ctx, v.vault, v.asset) == Some(v)
  {
    hide Analyze, BuildIntent, SnapshotOf, ActiveFrom;
  }

  /** What the intent is, field by field. */
  lemma ProposalShape(w: World, height: nat, chainId: nat, window: nat, v: VaultSnapshot, r: Recommendation, i: Intent)
    requires Proposes(w, height, chainId, window, v, r, i)
    ensures var ctx := ContextOf(w, height, chainId);
            && ForAsset(ctx.strategies, v.asset) != []
            && !w.admin.paused && v.supportsAsset && !v.paused && v.total > 0
            && i == Intent(v.vault, ForAsset(ctx.strategies, v.asset)[0].id, v.asset,
                           SizedAmount(v, ForAsset(ctx.strategies, v.asset)[0]), v.risk.maxSlippageBps,
                           NearestDouble(v.risk.lastNonce + 1), height + window)
            && i.amount > 0
            && r.decision == REBALANCE && r.strategy == Some(i.strategy) && r.amount == Some(i.amount)
  {
    hide SizedAmount, NearestDouble, SnapshotOf, ForAsset, ActiveFrom;
  }

  /** The snapshot's limits are the chain's, without loss. */
  lemma ExactRisk(w: World, ctx: Context, v: VaultSnapshot)
    requires RiskGuard.Valid(w.guard) && SnapshotOf(w, ctx, v.vault, v.asset) == Some(v)
    ensures v.vault in w.guard.configs
    ensures var cfg := w.guard.configs[v.vault];
            && v.risk.maxExposureBps == cfg.params.maxExposureBps
            && v.risk.maxSlippageBps == cfg.params.maxSlippageBps
            && v.risk.minIdleBps == cfg.params.minIdleBps
            && v.risk.lastNonce == NearestDouble(cfg.lastNonce)
            && (IsValidAsset(v.asset) ==> v.risk.maxTx == cfg.MaxTxFor(v.asset))
  {
    var cfg := w.guard.configs[v.vault];
    SmallIsExact(cfg.params.maxExposureBps);
    SmallIsExact(cfg.params.maxSlippageBps);
    SmallIsExact(cfg.params.minIdleBps);
    hide NearestDouble;
  }

  /** check-intent on a proposal, in the order of its checks. */
  lemma ProposalCheck(g: RiskGuard.State, height: nat, q: RiskGuard.Request, m: RiskGuard.Reading, v: VaultSnapshot, s: StrategySnapshot)
    requires q.vault in g.configs && IsValidAsset(q.asset)
    requires q.callerIsOwner || g.configs[q.vault].autonomous
    requires q.deadline >= height && q.nonce == Successor(g.configs[q.vault].lastNonce)
    requires q.amount > 0 && v.risk.maxTx == g.configs[q.vault].MaxTxFor(q.asset)
    requires q.slippageBps <= g.configs[q.vault].params.maxSlippageBps
    requires m.idle == v.idle <= m.total == v.total && v.total > 0
    requires m.allocation == Lookup(v.allocations, s.id) && m.protocolCapBps == s.maxAllocationBps
    requires v.risk.maxExposureBps == g.configs[q.vault].params.maxExposureBps <= BPS
    requires v.risk.minIdleBps == g.configs[q.vault].params.minIdleBps
    requires FitsExactly(v, s, q.amount)
    ensures var cfg := g.configs[q.vault];
            var verdict := RiskGuard.CheckIntent(g, false, height, q, m);
            if !Advances(cfg.lastNonce) then verdict == Err(308)
            else if !RiskGuard.CooldownPassed(cfg, height).Ok? then verdict == RiskGuard.CooldownPassed(cfg, height)
            else verdict == Ok(TRUE) || (verdict == Abort && v.total * BPS > UINT_MAX)
  {
    var cfg := g.configs[q.vault];
    SuccessorAdvancesIff(cfg.lastNonce);
    FitsPassesShares(v.total, v.idle, m.allocation, q.amount, v.risk.maxExposureBps, s.maxAllocationBps, v.risk.minIdleBps);
    assert (m.allocation + q.amount) * BPS <= v.total * BPS by { Pricing.MulLe(v.risk.maxExposureBps, BPS, v.total); }
    hide Successor, Advances, RiskGuard.CooldownPassed;
  }

  /** The shares the contract would compute for a sized amount respect the vault's limits. */
  lemma SizedSharesFit(v: VaultSnapshot, s: StrategySnapshot, a: nat)
    requires v.total > 0 && 0 < a == SizedAmount(v, s)
    ensures a <= v.idle
    ensures Traces.ShareBps(Lookup(v.allocations, s.id) + a, v.total) <= v.risk.maxExposureBps
    ensures Traces.ShareBps(v.idle - a, v.total) >= v.risk.minIdleBps
  {
    SizedAmountIsMaximal(v, s, a);
    hide SizedAmount;
    FitsPassesShares(v.total, v.idle, Lookup(v.allocations, s.id), a, v.risk.maxExposureBps, s.maxAllocationBps, v.risk.minIdleBps);
  }

  /** The view of an allocation of `amount` to the first strategy. */
  lemma ProposedView(v: VaultSnapshot, ctx: Context, r: Recommendation, amount: nat)
    requires ForAsset(ctx.strategies, v.asset) != [] && v.total > 0 && amount <= v.idle
    requires r.decision == REBALANCE && r.amount == Some(amount) && r.strategy == Some(ForAsset(ctx.strategies, v.asset)[0].id)
    ensures var s := ForAsset(ctx.strategies, v.asset)[0];
            var view := ProposedAllocation(v, ctx, r);
            && view.Some?
            && view.value.idleBps == Traces.ShareBps(v.idle - amount, v.total)
            && view.value.strategies != []
            && view.value.strategies[0].id == s.id
            && view.value.strategies[0].bps == Traces.ShareBps(Lookup(v.allocations, s.id) + amount, v.total)
  {
    hide ForAsset;
  }

  /** What the agent shows as the proposed allocation are exactly the shares the
      contract will compute, and they respect the vault's limits. */
  lemma ProposedSharesAreChecked(
    w: World, height: nat, chainId: nat, window: nat, v: VaultSnapshot, r: Recommendation, i: Intent)
    requires Proposes(w, height, chainId, window, v, r, i)
    ensures v.total > 0 && i.amount <= v.idle
    ensures var view := ProposedAllocation(v, ContextOf(w, height, chainId), r);
            && view.Some?
            && view.value.idleBps == Traces.ShareBps(v.idle - i.amount, v.total) >= v.risk.minIdleBps
            && view.value.strategies != []
            && view.value.strategies[0].id == i.strategy
            && view.value.strategies[0].bps == Traces.ShareBps(Lookup(v.allocations, i.strategy) + i.amount, v.total)
               <= v.risk.maxExposureBps
  {
    hide *;
    var ctx := ContextOf(w, height, chainId);
    ProposalShape(w, height, chainId, window, v, r, i);
    SizedSharesFit(v, ForAsset(ctx.strategies, v.asset)[0], i.amount);
    ProposedView(v, ctx, r, i.amount);
  }

  /** A vault whose nonce reached 2^53 is refused u308 by its own agent: the next
      double after 2^53 is 2^53 + 2, and 2^53 + 1 rounds back to 2^53. */
  lemma NonceCanStall()
    ensures Successor(TWO53) == TWO53 && !Advances(TWO53)
  {
    SmallIsExact(TWO53);
    SuccessorOfDouble(TWO53);
    SpacingBounds(TWO53);
  }
}
