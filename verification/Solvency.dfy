/** The vault contract's real holdings against its books, summed over ALL vaults,
    and what follows for a holder who wants out: on a chain that is not mainnet
    funds are never trapped. */
module Solvency {
  import opened Accounting
  import opened Clarity
  import opened Directory
  import opened Effects
  import opened Engine
  import opened MapSums
  import opened Protocol
  import AgentRegistry
  import Ledger
  import Pricing
  import ProtocolAdmin
  import ReceiptToken
  import RiskGuard
  import StrategyRegistry
  import Vault

  // ---- The books against the holdings ----

  ghost function OfAsset(asset: Asset): PoolKey -> bool {
    (k: PoolKey) => k.asset == asset
  }

  /** Everything every vault's books call idle, for one asset. */
  ghost function AllIdle(b: Books, asset: Asset): nat {
    SumIf(b.idle, OfAsset(asset))
  }

  ghost predicate StxSolvent(w: World) {
    AllIdle(BooksOf(w), STX) <= w.funds.ledger.StxOf(VaultContract)
  }

  /** Before a token is approved no sBTC can be deposited; afterwards the holding
      of that token covers the idle sBTC of all vaults. */
  ghost predicate SbtcSolvent(w: World) {
    match w.guard.approvedSbtc
    case None => AllIdle(BooksOf(w), SBTC) == 0
    case Some(token) => AllIdle(BooksOf(w), SBTC) <= w.funds.ledger.TokensOf(token, VaultContract)
  }

  /** What an effect does to the idle total of an asset. */
  function Flow(e: Effect, asset: Asset): int {
    match e
    case NoEffect => 0 as int
    case Deposited(pool, _, amount, _) => if pool.asset == asset then amount else 0
    case Redeemed(pool, _, _, amount) => if pool.asset == asset then 0 - amount else 0
    case Invested(pool, _, amount) => if pool.asset == asset then 0 - amount else 0
  }

  lemma IdleFollowsFlow(b: Books, e: Effect, asset: Asset)
    requires Allowed(b, e)
    ensures AllIdle(Applied(b, e), asset) == AllIdle(b, asset) + Flow(e, asset)
  {
    hide Pricing.ComputeDepositShares, Pricing.ComputeRedeemAssets;
    if !e.NoEffect? {
      var pool := e.pool;
      SumIfUpdate(b.idle, OfAsset(asset), pool, Applied(b, e).IdleOf(pool));
    }
  }

  // ---- Assumptions about foreign code ----

  /** A strategy's deposit pulls at most the amount it was called with, of the
      asset it was called for. */
  ghost predicate PullsAtMost(before: Ledger.State, after: Ledger.State, approved: Option<Principal>, asset: Asset, amount: nat) {
    && before.StxOf(VaultContract) <= after.StxOf(VaultContract) + (if asset == STX then amount else 0)
    && forall t :: before.TokensOf(t, VaultContract)
                   <= after.TokensOf(t, VaultContract) + (if asset == SBTC && approved == Some(t) then amount else 0)
  }

  ghost predicate HonestStrategy(w: World, step: Step) {
    EffectOf(w, step).Invested? && step.call.ToEngine? && step.call.strategyCall.outcome.Some? ==>
      PullsAtMost(w.funds.ledger, step.call.strategyCall.outcome.value, w.guard.approvedSbtc,
                  step.call.intent.asset, step.call.intent.amount)
  }

  /** Once a sBTC token is approved, it is not replaced by another one. */
  predicate PinsToken(w: World, step: Step) {
    && step.call.ToGuard? && step.call.guard.SetApprovedSbtcAsset? && w.guard.approvedSbtc.Some?
    ==> w.guard.approvedSbtc == Some(step.call.guard.asset)
  }

  ghost predicate HonestRun(w0: World, steps: seq<Step>) {
    forall n :: 0 <= n < |steps| ==> HonestStrategy(StateAt(w0, steps, n), steps[n])
  }

  ghost predicate PinnedRun(w0: World, steps: seq<Step>) {
    forall n :: 0 <= n < |steps| ==> PinsToken(StateAt(w0, steps, n), steps[n])
  }

  // ---- The holdings follow the books ----

  /** The vault's holdings moved by at least the flow of the effect. */
  ghost predicate Follows(before: Ledger.State, after: Ledger.State, approved: Option<Principal>, e: Effect) {
    && before.StxOf(VaultContract) + Flow(e, STX) <= after.StxOf(VaultContract)
    && (approved.Some? ==>
          before.TokensOf(approved.value, VaultContract) + Flow(e, SBTC) <= after.TokensOf(approved.value, VaultContract))
    && (approved.None? ==> Flow(e, SBTC) <= 0)
  }

  lemma HoldingsFollow(w: World, step: Step)
    requires Possible(w, step) && HonestStrategy(w, step)
    ensures Follows(w.funds.ledger, Next(w, step).funds.ledger, w.guard.approvedSbtc, EffectOf(w, step))
  {
    hide VaultExecuted, PoolsExecuted, Submitted;
    hide ProtocolAdmin.Executed, AgentRegistry.Executed, StrategyRegistry.Executed, RiskGuard.Executed, ReceiptToken.Executed;
    if Executed(w, step).Ok? {
      match step.call
      case ToVault(call) => VaultCallLedger(w, step.tx, call);
      case ToPools(call) => PoolsLedger(w, step.tx, call);
      case ToEngine(i, strategyCall) => SubmitLedger(w, step.tx, i, strategyCall);
      case _ =>
    }
  }

  lemma VaultCallLedger(w: World, tx: Tx, call: VaultCall)
    requires VaultExecuted(w, tx, call).Ok?
    ensures VaultExecuted(w, tx, call).value.0.funds.ledger == w.funds.ledger
  {
  }

  lemma SubmitLedger(w: World, tx: Tx, i: Intent, strategyCall: Vault.StrategyCall)
    requires Submitted(w, tx, i, strategyCall).Ok?
    ensures Some(Submitted(w, tx, i, strategyCall).value.0.funds.ledger) == strategyCall.outcome
    ensures IsValidAsset(i.asset)
  {
    hide Submitted;
    var q, recorded := SubmittedShape(w, tx, i, strategyCall);
  }

  lemma PoolsLedger(w: World, tx: Tx, call: PoolCall)
    requires FromOutside(tx) && PoolsExecuted(w, tx, call).Ok?
    ensures var (funds, v) := PoolsExecuted(w, tx, call).value;
            Follows(w.funds.ledger, funds.ledger, w.guard.approvedSbtc, CallEffect(tx, ToPools(call), v))
  {
    hide Vault.StxDeposited, Vault.SbtcDeposited, Vault.StxRedeemed, Vault.SbtcRedeemed, Vault.Credited, Vault.Debited;
    hide Vault.PreviewDeposit, Vault.PreviewRedeem;
    var t := w.funds;
    match call
    case DepositStx(id, amount) =>
      var shares, ledger := StxDepositParts(t, w.admin.paused, tx, id, amount);
      CreditedKeepsLedger(t.(ledger := ledger), PoolKey(id, STX), tx.sender, amount, shares);
    case DepositSbtc(id, amount, token, accepts) =>
      var shares, ledger := SbtcDepositParts(t, w.admin.paused, w.guard.approvedSbtc, tx, id, amount, token, accepts);
      CreditedKeepsLedger(t.(ledger := ledger), PoolKey(id, SBTC), tx.sender, amount, shares);
    case RedeemStx(id, shares) =>
      var payout, debited := StxRedeemParts(t, tx, id, shares);
      DebitedShape(t, PoolKey(id, STX), tx.sender, shares, payout);
    case RedeemSbtc(id, shares, token, accepts) =>
      var payout, debited := SbtcRedeemParts(t, w.guard.approvedSbtc, tx, id, shares, token, accepts);
      DebitedShape(t, PoolKey(id, SBTC), tx.sender, shares, payout);
    case ExecuteRebalance(_, _, _, _) => assert false;
  }

  lemma CreditedKeepsLedger(t: Vault.Treasury, pool: PoolKey, holder: Principal, amount: nat, shares: nat)
    requires Vault.Credited(t, pool, holder, amount, shares).Ok?
    ensures Vault.Credited(t, pool, holder, amount, shares).value.0.ledger == t.ledger
    ensures Vault.Credited(t, pool, holder, amount, shares).value.1 == shares
  {
    hide Vault.Credited;
    var vault := CreditedShape(t, pool, holder, amount, shares);
  }

  lemma VaultCallApproved(w: World, tx: Tx, call: VaultCall)
    requires VaultExecuted(w, tx, call).Ok?
    ensures VaultExecuted(w, tx, call).value.0.guard.approvedSbtc == w.guard.approvedSbtc
  {
  }

  lemma ApprovedToken(w: World, step: Step)
    ensures Next(w, step).guard.approvedSbtc == w.guard.approvedSbtc
         || (step.call.ToGuard? && step.call.guard.SetApprovedSbtcAsset?
             && Next(w, step).guard.approvedSbtc == Some(step.call.guard.asset)
             && Next(w, step).funds == w.funds)
  {
    hide VaultExecuted, PoolsExecuted, Submitted, ReceiptToken.Executed;
    hide ProtocolAdmin.Executed, AgentRegistry.Executed, StrategyRegistry.Executed;
    if Executed(w, step).Ok? {
      match step.call
      case ToVault(call) => VaultCallApproved(w, step.tx, call);
      case ToEngine(i, strategyCall) => var q, recorded := SubmittedShape(w, step.tx, i, strategyCall);
      case _ =>
    }
  }

  /** Each step keeps the vault contract solvent in STX, over all vaults at once. */
  lemma StepKeepsStxSolvent(w: World, step: Step)
    requires Possible(w, step) && HonestStrategy(w, step) && StxSolvent(w)
    ensures StxSolvent(Next(w, step))
  {
    hide Executed, EffectOf;
    StepEffect(w, step);
    IdleFollowsFlow(BooksOf(w), EffectOf(w, step), STX);
    HoldingsFollow(w, step);
  }

  lemma StepKeepsSbtcSolvent(w: World, step: Step)
    requires Possible(w, step) && HonestStrategy(w, step) && PinsToken(w, step) && SbtcSolvent(w)
    ensures SbtcSolvent(Next(w, step))
  {
    hide Executed, EffectOf;
    StepEffect(w, step);
    IdleFollowsFlow(BooksOf(w), EffectOf(w, step), SBTC);
    HoldingsFollow(w, step);
    ApprovedToken(w, step);
  }

  /** In every reachable state, donations or not, the STX the vault contract really
      holds covers the idle STX of all vaults together. */
  lemma {:induction false} ReachableStxSolvent(deployer: Principal, holdings: Ledger.State, steps: seq<Step>, n: nat)
    requires var w0 := Genesis(deployer, holdings); PossibleRun(w0, steps) && HonestRun(w0, steps)
    requires n <= |steps|
    ensures StxSolvent(StateAt(Genesis(deployer, holdings), steps, n))
  {
    hide Executed, EffectOf, StateAt, Next, PossibleRun, Possible, HonestStrategy;
    var w0 := Genesis(deployer, holdings);
    if n == 0 {
      RunStart(w0, steps);
    } else {
      ReachableStxSolvent(deployer, holdings, steps, n - 1);
      RunStep(w0, steps, n - 1);
      StepKeepsStxSolvent(StateAt(w0, steps, n - 1), steps[n - 1]);
    }
  }

  /** The same for sBTC, as long as the approved token is not replaced. */
  lemma {:induction false} ReachableSbtcSolvent(deployer: Principal, holdings: Ledger.State, steps: seq<Step>, n: nat)
    requires var w0 := Genesis(deployer, holdings); PossibleRun(w0, steps) && HonestRun(w0, steps) && PinnedRun(w0, steps)
    requires n <= |steps|
    ensures SbtcSolvent(StateAt(Genesis(deployer, holdings), steps, n))
  {
    hide Executed, EffectOf, StateAt, Next, PossibleRun, Possible, HonestStrategy, PinsToken;
    var w0 := Genesis(deployer, holdings);
    if n == 0 {
      RunStart(w0, steps);
    } else {
      ReachableSbtcSolvent(deployer, holdings, steps, n - 1);
      RunStep(w0, steps, n - 1);
      StepKeepsSbtcSolvent(StateAt(w0, steps, n - 1), steps[n - 1]);
    }
  }

  // ---- Off mainnet ----

  ghost predicate OffMainnet(steps: seq<Step>) {
    forall n :: 0 <= n < |steps| ==> steps[n].tx.chainId != 1
  }

  ghost predicate NothingDeployed(w: World) {
    !w.guard.armed && w.funds.vault.allocations == map[]
  }

  /** Off mainnet nothing arms the gate, and nothing is ever allocated. */
  lemma StepDeploysNothing(w: World, step: Step)
    requires FromOutside(step.tx) && step.tx.chainId != 1 && NothingDeployed(w)
    ensures NothingDeployed(Next(w, step)) && !EffectOf(w, step).Invested?
  {
    hide PoolsExecuted;
    hide Effects.CallEffect;
    StepEffect(w, step);
    if step.call.ToEngine? {
      assert !RiskGuard.IsExecutionEnabled(w.guard, step.tx);
    }
    EffectKind(w, step);
    ArmedOnlyOnMainnet(w, step);
  }

  lemma EffectKind(w: World, step: Step)
    ensures EffectOf(w, step).Invested? ==> step.call.ToEngine? && Executed(w, step).Ok?
  {
    hide Executed;
  }

  lemma ArmedOnlyOnMainnet(w: World, step: Step)
    requires step.tx.chainId != 1
    ensures Next(w, step).guard.armed == w.guard.armed
  {
  }

  lemma {:induction false} ReachableNothingDeployed(deployer: Principal, holdings: Ledger.State, steps: seq<Step>, n: nat)
    requires PossibleRun(Genesis(deployer, holdings), steps) && OffMainnet(steps) && n <= |steps|
    ensures var w0 := Genesis(deployer, holdings);
            && NothingDeployed(StateAt(w0, steps, n))
            && forall i :: 0 <= i < n ==> !EffectOf(StateAt(w0, steps, i), steps[i]).Invested?
  {
    hide Executed, EffectOf, StateAt, Next, PossibleRun, Possible;
    var w0 := Genesis(deployer, holdings);
    if n == 0 {
      RunStart(w0, steps);
    } else {
      ReachableNothingDeployed(deployer, holdings, steps, n - 1);
      RunStep(w0, steps, n - 1);
      StepDeploysNothing(StateAt(w0, steps, n - 1), steps[n - 1]);
    }
  }

  // ---- Getting out ----

  /** Everything reachable states guarantee that a redemption relies on. */
  ghost predicate Sound(w: World) {
    && Balanced(BooksOf(w))
    && DirectoryExact(w.funds.vault)
    && SharesAreListed(w.funds.vault, BooksOf(w))
  }

  lemma ReachableSound(deployer: Principal, holdings: Ledger.State, steps: seq<Step>, n: nat)
    requires PossibleRun(Genesis(deployer, holdings), steps) && n <= |steps|
    ensures Sound(StateAt(Genesis(deployer, holdings), steps, n))
  {
    ReachableBalanced(deployer, holdings, steps, n);
    ReachableDirectory(deployer, holdings, steps, n);
    ReachableListed(deployer, holdings, steps, n);
  }

  /** The books a redemption of `s` shares leaves, one unit per share. */
  lemma RedemptionOfBalancedPool(w: World, pool: PoolKey, holder: Principal, s: nat)
    requires Sound(w) && IsValidAsset(pool.asset)
    requires 0 < s <= BooksOf(w).SharesOf(pool, holder)
    requires s * BooksOf(w).TotalOf(pool) <= UINT_MAX
    ensures Vault.SupportsAsset(w.funds.vault, pool)
    ensures Vault.PreviewRedeem(w.funds, pool, s) == Ok(s)
    ensures var r := Vault.Debited(w.funds, pool, holder, s, s);
            if s <= BooksOf(w).IdleOf(pool)
            then r.Ok? && r.value.ledger == w.funds.ledger
                 && r.value.receipts.BalanceOf(pool, holder) == BooksOf(w).SharesOf(pool, holder) - s
            else r == Err(105)
  {
    var b := BooksOf(w);
    assert PoolBalanced(b, pool);
    SharesWithinSupply(b, pool, holder);
    assert w.funds.SupplyOf(pool) == b.SupplyOf(pool) && w.funds.vault.TotalOf(pool) == b.TotalOf(pool);
    ExactFloor(s, b.SupplyOf(pool));
  }

  /** In every reachable state, whatever is paused: redeeming any of one's STX
      shares pays exactly that many units if so much is idle, and is refused
      with u105 otherwise; no other answer exists. */
  lemma RedeemStxAnswer(w: World, tx: Tx, id: nat, s: nat)
    requires FromOutside(tx) && Sound(w) && StxSolvent(w)
    requires 0 < s <= BooksOf(w).SharesOf(PoolKey(id, STX), tx.sender)
    requires s * BooksOf(w).TotalOf(PoolKey(id, STX)) <= UINT_MAX
    ensures var r := Vault.StxRedeemed(w.funds, tx, id, s);
            if s <= BooksOf(w).IdleOf(PoolKey(id, STX))
            then && r.Ok? && r.value.1 == s
                 && r.value.0.ledger.StxOf(tx.sender) == w.funds.ledger.StxOf(tx.sender) + s
                 && r.value.0.receipts.BalanceOf(PoolKey(id, STX), tx.sender)
                    == w.funds.receipts.BalanceOf(PoolKey(id, STX), tx.sender) - s
            else r == Err(105)
  {
    var pool := PoolKey(id, STX);
    RedemptionOfBalancedPool(w, pool, tx.sender, s);
    SumIfBounds(BooksOf(w).idle, OfAsset(STX), pool);
    hide Vault.Debited, Vault.PreviewRedeem;
  }

  /** The same for sBTC, solvent or not: on top of u105 there is u106, exactly when
      the vault does not hold enough of the approved token. */
  lemma RedeemSbtcAnswer(w: World, tx: Tx, id: nat, s: nat, token: Principal)
    requires FromOutside(tx) && Sound(w) && w.guard.approvedSbtc == Some(token)
    requires 0 < s <= BooksOf(w).SharesOf(PoolKey(id, SBTC), tx.sender)
    requires s * BooksOf(w).TotalOf(PoolKey(id, SBTC)) <= UINT_MAX
    ensures var r := Vault.SbtcRedeemed(w.funds, Some(token), tx, id, s, token, true);
            if s > BooksOf(w).IdleOf(PoolKey(id, SBTC)) then r == Err(105)
            else if s > w.funds.ledger.TokensOf(token, VaultContract) then r == Err(106)
            else && r.Ok? && r.value.1 == s
                 && r.value.0.ledger.TokensOf(token, tx.sender) == w.funds.ledger.TokensOf(token, tx.sender) + s
                 && r.value.0.receipts.BalanceOf(PoolKey(id, SBTC), tx.sender)
                    == w.funds.receipts.BalanceOf(PoolKey(id, SBTC), tx.sender) - s
  {
    hide Vault.Debited, Vault.PreviewRedeem;
    RedemptionOfBalancedPool(w, PoolKey(id, SBTC), tx.sender, s);
  }

  lemma SbtcPoolCovered(w: World, pool: PoolKey)
    requires SbtcSolvent(w) && w.guard.approvedSbtc.Some? && pool.asset == SBTC
    ensures BooksOf(w).IdleOf(pool) <= w.funds.ledger.TokensOf(w.guard.approvedSbtc.value, VaultContract)
  {
    SumIfBounds(BooksOf(w).idle, OfAsset(SBTC), pool);
  }

  const TWO64: nat := 0x1_0000_0000_0000_0000

  /** Products of two amounts below 2^64 fit a Clarity uint. */
  lemma ProductsFit(a: nat, b: nat)
    requires a <= TWO64 - 1 && b <= TWO64 - 1
    ensures a * b <= UINT_MAX
  {
    Pricing.MulLe(a, TWO64 - 1, b);
    Pricing.MulLe(b, TWO64 - 1, TWO64 - 1);
  }

  /** Off mainnet every pool is entirely idle, and no pool exceeds what the vault really holds. */
  lemma OffMainnetAllIdle(w: World, pool: PoolKey)
    requires Sound(w) && NothingDeployed(w)
    ensures BooksOf(w).IdleOf(pool) == BooksOf(w).TotalOf(pool)
    ensures pool.asset == STX && StxSolvent(w) ==> BooksOf(w).TotalOf(pool) <= w.funds.ledger.StxOf(VaultContract)
    ensures pool.asset == SBTC && SbtcSolvent(w) && w.guard.approvedSbtc.Some? ==>
              BooksOf(w).TotalOf(pool) <= w.funds.ledger.TokensOf(w.guard.approvedSbtc.value, VaultContract)
  {
    assert PoolBalanced(BooksOf(w), pool);
    SumIfZero(BooksOf(w).allocations, InvestedFrom(pool));
    SumIfBounds(BooksOf(w).idle, OfAsset(pool.asset), pool);
  }

  lemma OffMainnetIsHonest(deployer: Principal, holdings: Ledger.State, steps: seq<Step>)
    requires PossibleRun(Genesis(deployer, holdings), steps) && OffMainnet(steps)
    ensures HonestRun(Genesis(deployer, holdings), steps)
  {
    hide Executed, EffectOf;
    ReachableNothingDeployed(deployer, holdings, steps, |steps|);
  }

  /** Funds are never trapped on Testnet: after any run on a chain that is not
      mainnet, with anything paused, whoever holds shares can redeem any part of
      them and receives exactly that much. The vault's real STX holding is taken
      below 2^64, as all STX there is are; the run needs no assumption about
      strategies. */
  lemma NeverTrappedStx(deployer: Principal, holdings: Ledger.State, steps: seq<Step>, tx: Tx, id: nat, s: nat)
    requires var w0 := Genesis(deployer, holdings);
             && PossibleRun(w0, steps) && OffMainnet(steps) && FromOutside(tx)
             && StateAt(w0, steps, |steps|).funds.ledger.StxOf(VaultContract) < TWO64
             && 0 < s <= BooksOf(StateAt(w0, steps, |steps|)).SharesOf(PoolKey(id, STX), tx.sender)
    ensures var w := StateAt(Genesis(deployer, holdings), steps, |steps|);
            var r := Executed(w, Step(tx, ToPools(RedeemStx(id, s))));
            && r.Ok? && r.value.1 == s
            && r.value.0.funds.ledger.StxOf(tx.sender) == w.funds.ledger.StxOf(tx.sender) + s
            && BooksOf(r.value.0).SharesOf(PoolKey(id, STX), tx.sender) == BooksOf(w).SharesOf(PoolKey(id, STX), tx.sender) - s
  {
    hide Executed, EffectOf, StateAt, PossibleRun, OffMainnet;
    CanAlwaysLeaveStx(deployer, holdings, steps, tx, id, s);
    RedeemStxStep(StateAt(Genesis(deployer, holdings), steps, |steps|), tx, id, s);
  }

  lemma CanAlwaysLeaveStx(deployer: Principal, holdings: Ledger.State, steps: seq<Step>, tx: Tx, id: nat, s: nat)
    requires var w0 := Genesis(deployer, holdings);
             && PossibleRun(w0, steps) && OffMainnet(steps) && FromOutside(tx)
             && StateAt(w0, steps, |steps|).funds.ledger.StxOf(VaultContract) < TWO64
             && 0 < s <= BooksOf(StateAt(w0, steps, |steps|)).SharesOf(PoolKey(id, STX), tx.sender)
    ensures var w := StateAt(Genesis(deployer, holdings), steps, |steps|);
            var r := Vault.StxRedeemed(w.funds, tx, id, s);
            && r.Ok? && r.value.1 == s
            && r.value.0.ledger.StxOf(tx.sender) == w.funds.ledger.StxOf(tx.sender) + s
            && r.value.0.receipts.BalanceOf(PoolKey(id, STX), tx.sender)
               == w.funds.receipts.BalanceOf(PoolKey(id, STX), tx.sender) - s
  {
    hide Executed, EffectOf, Vault.StxRedeemed;
    var w := StateAt(Genesis(deployer, holdings), steps, |steps|);
    var pool := PoolKey(id, STX);
    OffMainnetIsHonest(deployer, holdings, steps);
    ReachableSound(deployer, holdings, steps, |steps|);
    ReachableStxSolvent(deployer, holdings, steps, |steps|);
    ReachableNothingDeployed(deployer, holdings, steps, |steps|);
    OffMainnetAllIdle(w, pool);
    assert PoolBalanced(BooksOf(w), pool);
    SharesWithinSupply(BooksOf(w), pool, tx.sender);
    ProductsFit(s, BooksOf(w).TotalOf(pool));
    RedeemStxAnswer(w, tx, id, s);
  }

  lemma RedeemStxStep(w: World, tx: Tx, id: nat, s: nat)
    requires Vault.StxRedeemed(w.funds, tx, id, s).Ok?
    ensures var (funds, v) := Vault.StxRedeemed(w.funds, tx, id, s).value;
            Executed(w, Step(tx, ToPools(RedeemStx(id, s)))) == Ok((w.(funds := funds), v))
  {
    hide Vault.StxRedeemed;
  }

  /** The same for sBTC while the approved token stays the same and its contract
      lets the transfer through. */
  lemma NeverTrappedSbtc(
    deployer: Principal, holdings: Ledger.State, steps: seq<Step>, tx: Tx, id: nat, s: nat, token: Principal)
    requires var w0 := Genesis(deployer, holdings);
             && PossibleRun(w0, steps) && OffMainnet(steps) && PinnedRun(w0, steps) && FromOutside(tx)
             && StateAt(w0, steps, |steps|).guard.approvedSbtc == Some(token)
             && StateAt(w0, steps, |steps|).funds.ledger.TokensOf(token, VaultContract) < TWO64
             && 0 < s <= BooksOf(StateAt(w0, steps, |steps|)).SharesOf(PoolKey(id, SBTC), tx.sender)
    ensures var w := StateAt(Genesis(deployer, holdings), steps, |steps|);
            var r := Vault.SbtcRedeemed(w.funds, w.guard.approvedSbtc, tx, id, s, token, true);
            && r.Ok? && r.value.1 == s
            && r.value.0.ledger.TokensOf(token, tx.sender) == w.funds.ledger.TokensOf(token, tx.sender) + s
            && r.value.0.receipts.BalanceOf(PoolKey(id, SBTC), tx.sender)
               == w.funds.receipts.BalanceOf(PoolKey(id, SBTC), tx.sender) - s
  {
    hide Executed, EffectOf, Vault.SbtcRedeemed;
    var w := StateAt(Genesis(deployer, holdings), steps, |steps|);
    var pool := PoolKey(id, SBTC);
    OffMainnetIsHonest(deployer, holdings, steps);
    ReachableSound(deployer, holdings, steps, |steps|);
    ReachableSbtcSolvent(deployer, holdings, steps, |steps|);
    ReachableNothingDeployed(deployer, holdings, steps, |steps|);
    OffMainnetAllIdle(w, pool);
    assert PoolBalanced(BooksOf(w), pool);
    SharesWithinSupply(BooksOf(w), pool, tx.sender);
    ProductsFit(s, BooksOf(w).TotalOf(pool));
    SbtcPoolCovered(w, pool);
    RedeemSbtcAnswer(w, tx, id, s, token);
  }

  // ---- A replacement that traps ----

  const ADMIN := Wallet(1)
  const HOLDER := Wallet(2)
  const OLD_TOKEN := Deployed(1)
  const NEW_TOKEN := Deployed(2)
  const TESTNET_CHAIN_ID: nat := 0x80000000

  function ByAdmin(call: Call): Step {
    Step(Tx(ADMIN, ADMIN, 1, TESTNET_CHAIN_ID), call)
  }

  function ByHolder(call: Call): Step {
    Step(Tx(HOLDER, HOLDER, 1, TESTNET_CHAIN_ID), call)
  }

  /** The holder owns 10000 units of the old token when the protocol is deployed. */
  function TrapStart(): World {
    Genesis(ADMIN, Ledger.State(map[], map[Ledger.TokenKey(OLD_TOKEN, HOLDER) := 10000]))
  }

  /** A token is approved, a vault created, 10000 units are deposited, and another
      token is approved. */
  function TrapRun(): seq<Step> {
    [ByAdmin(ToGuard(RiskGuard.SetApprovedSbtcAsset(OLD_TOKEN))),
     ByHolder(ToVault(CreateVault(Vault.Creation("v", 0, Vault.ASSETS_BOTH, false,
                                                 RiskGuard.Params(3000, 1, 1, 500, 1000, 10), false)))),
     ByHolder(ToPools(DepositSbtc(1, 10000, OLD_TOKEN, true))),
     ByAdmin(ToGuard(RiskGuard.SetApprovedSbtcAsset(NEW_TOKEN)))]
  }

  /** What the run has built when the holder's deposit is in. */
  lemma TrapBeforeReplacement()
    ensures var w := StateAt(TrapStart(), TrapRun(), 3);
            && BooksOf(w).SharesOf(PoolKey(1, SBTC), HOLDER) == 10000
            && w.funds.ledger.TokensOf(NEW_TOKEN, VaultContract) == 0
            && w.admin.admin == ADMIN
  {
    var steps := TrapRun();
    var w1 := Next(TrapStart(), steps[0]);
    assert StateAt(TrapStart(), steps, 1) == w1;
    assert w1 == TrapStart().(guard := RiskGuard.INITIAL.(approvedSbtc := Some(OLD_TOKEN)));
    var w2 := Next(w1, steps[1]);
    assert StateAt(TrapStart(), steps, 2) == w2;
    assert Executed(w1, steps[1]).Ok?;
    assert StateAt(TrapStart(), steps, 3) == Next(w2, steps[2]);
    assert Executed(w2, steps[2]).Ok?;
  }

  lemma TrapReplacement()
    ensures var w, w' := StateAt(TrapStart(), TrapRun(), 3), StateAt(TrapStart(), TrapRun(), 4);
            w.admin.admin == ADMIN ==> w' == w.(guard := w.guard.(approvedSbtc := Some(NEW_TOKEN)))
  {
    assert StateAt(TrapStart(), TrapRun(), 4) == Next(StateAt(TrapStart(), TrapRun(), 3), TrapRun()[3]);
    hide StateAt;
  }

  /** Without a unit of the approved token in the vault no sBTC redemption goes through. */
  lemma NoTokenNoRedemption(w: World, tx: Tx, id: nat, s: nat, token: Principal, accepts: bool)
    requires FromOutside(tx) && w.guard.approvedSbtc.Some?
    requires w.funds.ledger.TokensOf(w.guard.approvedSbtc.value, VaultContract) == 0
    ensures !Executed(w, Step(tx, ToPools(RedeemSbtc(id, s, token, accepts)))).Ok?
  {
    var r := Vault.SbtcRedeemed(w.funds, w.guard.approvedSbtc, tx, id, s, token, accepts);
    if r.Ok? {
      var payout, debited := SbtcRedeemParts(w.funds, w.guard.approvedSbtc, tx, id, s, token, accepts);
    }
  }

  /** A possible run, off mainnet and without any strategy, that leaves a holder of
      10000 sBTC shares unable to redeem a single one, whatever token is named. */
  lemma ReplacingTokenCanTrap(s: nat, token: Principal, accepts: bool)
    ensures PossibleRun(TrapStart(), TrapRun()) && OffMainnet(TrapRun())
    ensures var w := StateAt(TrapStart(), TrapRun(), 4);
            && BooksOf(w).SharesOf(PoolKey(1, SBTC), HOLDER) == 10000
            && !Executed(w, ByHolder(ToPools(RedeemSbtc(1, s, token, accepts)))).Ok?
  {
    hide Executed, EffectOf, StateAt;
    TrapBeforeReplacement();
    TrapReplacement();
    NoTokenNoRedemption(StateAt(TrapStart(), TrapRun(), 4), ByHolder(ToPools(RedeemSbtc(1, s, token, accepts))).tx, 1, s, token, accepts);
  }
}
