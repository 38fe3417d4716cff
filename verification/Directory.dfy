/** The vault directory and its on-chain discovery indexes: in every reachable
    state "which vaults are mine" and "where have I deposited" are answered
    exactly, and what depositors rely on never changes. */
module Directory {
  import opened Clarity
  import opened Effects
  import opened Engine
  import opened Protocol
  import AgentRegistry
  import Ledger
  import Pricing
  import ProtocolAdmin
  import ReceiptToken
  import RiskGuard
  import StrategyRegistry
  import Vault

  // ---- Exactness of the indexes ----

  ghost predicate InOwnerIndex(s: Vault.State, owner: Principal, id: nat) {
    exists i: nat :: Vault.IndexKey(owner, i) in s.ownerVaults && s.ownerVaults[Vault.IndexKey(owner, i)] == id
  }

  /** Entries 0..count-1 are strictly increasing and are precisely the owner's vaults. */
  ghost predicate OwnerIndexExact(s: Vault.State, owner: Principal) {
    && (forall i: nat :: Vault.IndexKey(owner, i) in s.ownerVaults <==> i < Lookup(s.ownerCount, owner))
    && (forall i: nat, j: nat :: i < j < Lookup(s.ownerCount, owner) ==>
          s.ownerVaults[Vault.IndexKey(owner, i)] < s.ownerVaults[Vault.IndexKey(owner, j)])
    && (forall id :: InOwnerIndex(s, owner, id) <==> id in s.vaults && s.vaults[id].owner == owner)
  }

  ghost predicate InHolderIndex(s: Vault.State, holder: Principal, id: nat) {
    exists i: nat :: Vault.IndexKey(holder, i) in s.holderVaults && s.holderVaults[Vault.IndexKey(holder, i)] == id
  }

  /** Entries 0..count-1 have no duplicates and are precisely the registered vaults. */
  ghost predicate HolderIndexExact(s: Vault.State, holder: Principal) {
    && (forall i: nat :: Vault.IndexKey(holder, i) in s.holderVaults <==> i < Lookup(s.holderCount, holder))
    && (forall i: nat, j: nat :: i < j < Lookup(s.holderCount, holder) ==>
          s.holderVaults[Vault.IndexKey(holder, i)] != s.holderVaults[Vault.IndexKey(holder, j)])
    && (forall id :: InHolderIndex(s, holder, id) <==> Vault.Registration(holder, id) in s.holderRegistered)
  }

  /** Vault ids are handed out from 1 without gaps, and both indexes are exact. */
  ghost predicate DirectoryExact(s: Vault.State) {
    && s.nextVaultId >= 1
    && (forall id: nat :: id in s.vaults <==> 1 <= id < s.nextVaultId)
    && (forall owner :: OwnerIndexExact(s, owner))
    && (forall holder :: HolderIndexExact(s, holder))
  }

  // ---- The three things a step can do to the directory ----

  /** Every vault is still there, with the same owner and supported assets. */
  ghost predicate KeepsVaults(s: Vault.State, s': Vault.State) {
    forall id :: id in s.vaults ==>
      id in s'.vaults && s'.vaults[id].owner == s.vaults[id].owner && s'.vaults[id].assets == s.vaults[id].assets
  }

  ghost predicate SameOwners(s: Vault.State, s': Vault.State) {
    && s'.nextVaultId == s.nextVaultId
    && s'.vaults.Keys == s.vaults.Keys
    && KeepsVaults(s, s')
    && s'.ownerCount == s.ownerCount
    && s'.ownerVaults == s.ownerVaults
  }

  ghost predicate SameHolders(s: Vault.State, s': Vault.State) {
    && s'.holderCount == s.holderCount
    && s'.holderVaults == s.holderVaults
    && s'.holderRegistered == s.holderRegistered
  }

  ghost predicate AddsVault(s: Vault.State, s': Vault.State, info: Vault.Info) {
    var id, index := s.nextVaultId, Lookup(s.ownerCount, info.owner);
    && s'.nextVaultId == id + 1
    && s'.vaults == s.vaults[id := info]
    && s'.ownerVaults == s.ownerVaults[Vault.IndexKey(info.owner, index) := id]
    && s'.ownerCount == s.ownerCount[info.owner := index + 1]
  }

  ghost predicate AddsHolder(s: Vault.State, s': Vault.State, holder: Principal, id: nat) {
    if Vault.Registration(holder, id) in s.holderRegistered then SameHolders(s, s')
    else
      var index := Lookup(s.holderCount, holder);
      && s'.holderRegistered == s.holderRegistered + {Vault.Registration(holder, id)}
      && s'.holderVaults == s.holderVaults[Vault.IndexKey(holder, index) := id]
      && s'.holderCount == s.holderCount[holder := index + 1]
  }

  lemma AddsVaultKeepsOwnerIndex(s: Vault.State, s': Vault.State, info: Vault.Info, owner: Principal)
    requires AddsVault(s, s', info) && OwnerIndexExact(s, owner)
    requires forall id: nat :: id in s.vaults <==> 1 <= id < s.nextVaultId
    ensures OwnerIndexExact(s', owner)
  {
    var index := Lookup(s.ownerCount, owner);
    forall i: nat | i < index
      ensures s.ownerVaults[Vault.IndexKey(owner, i)] < s.nextVaultId
    {
      assert InOwnerIndex(s, owner, s.ownerVaults[Vault.IndexKey(owner, i)]);
    }
    forall id
      ensures InOwnerIndex(s', owner, id) <==> id in s'.vaults && s'.vaults[id].owner == owner
    {
      AddedVaultListed(s, s', info, owner, id);
    }
    hide InOwnerIndex;
  }

  lemma AddedVaultListed(s: Vault.State, s': Vault.State, info: Vault.Info, owner: Principal, id: nat)
    requires AddsVault(s, s', info) && OwnerIndexExact(s, owner) && s.nextVaultId !in s.vaults
    ensures InOwnerIndex(s', owner, id) <==> id in s'.vaults && s'.vaults[id].owner == owner
  {
    var index := Lookup(s.ownerCount, owner);
    assert InOwnerIndex(s, owner, id) <==> id in s.vaults && s.vaults[id].owner == owner;
    if InOwnerIndex(s, owner, id) {
      var i: nat :| Vault.IndexKey(owner, i) in s.ownerVaults && s.ownerVaults[Vault.IndexKey(owner, i)] == id;
      assert s'.ownerVaults[Vault.IndexKey(owner, i)] == id;
    }
    if id == s.nextVaultId && owner == info.owner {
      assert s'.ownerVaults[Vault.IndexKey(owner, index)] == id;
    }
    if InOwnerIndex(s', owner, id) {
      var i: nat :| Vault.IndexKey(owner, i) in s'.ownerVaults && s'.ownerVaults[Vault.IndexKey(owner, i)] == id;
      if !(owner == info.owner && i == index) {
        assert s.ownerVaults[Vault.IndexKey(owner, i)] == id;
      }
    }
  }

  lemma AddsHolderKeepsIndex(s: Vault.State, s': Vault.State, holder: Principal, id: nat, who: Principal)
    requires AddsHolder(s, s', holder, id) && HolderIndexExact(s, who)
    ensures HolderIndexExact(s', who)
  {
    if Vault.Registration(holder, id) in s.holderRegistered {
      SameHoldersKeepIndex(s, s', who);
    } else {
      var index := Lookup(s.holderCount, holder);
      forall i: nat | i < index && who == holder
        ensures s.holderVaults[Vault.IndexKey(who, i)] != id
      {
        assert InHolderIndex(s, who, s.holderVaults[Vault.IndexKey(who, i)]);
      }
      forall v
        ensures InHolderIndex(s', who, v) <==> Vault.Registration(who, v) in s'.holderRegistered
      {
        if InHolderIndex(s, who, v) {
          var i: nat :| Vault.IndexKey(who, i) in s.holderVaults && s.holderVaults[Vault.IndexKey(who, i)] == v;
          assert s'.holderVaults[Vault.IndexKey(who, i)] == v;
        }
        if who == holder && v == id {
          assert s'.holderVaults[Vault.IndexKey(who, index)] == v;
        }
        if InHolderIndex(s', who, v) {
          var i: nat :| Vault.IndexKey(who, i) in s'.holderVaults && s'.holderVaults[Vault.IndexKey(who, i)] == v;
          if !(who == holder && i == index) {
            assert s.holderVaults[Vault.IndexKey(who, i)] == v;
            assert InHolderIndex(s, who, v);
          }
        }
      }
    }
  }

  lemma SameHoldersKeepIndex(s: Vault.State, s': Vault.State, who: Principal)
    requires SameHolders(s, s') && HolderIndexExact(s, who)
    ensures HolderIndexExact(s', who)
  {
    forall v
      ensures InHolderIndex(s', who, v) <==> Vault.Registration(who, v) in s'.holderRegistered
    {
      assert InHolderIndex(s', who, v) <==> InHolderIndex(s, who, v);
    }
  }

  lemma SameOwnersKeepIndex(s: Vault.State, s': Vault.State, who: Principal)
    requires SameOwners(s, s') && OwnerIndexExact(s, who)
    ensures OwnerIndexExact(s', who)
  {
    forall id
      ensures InOwnerIndex(s', who, id) <==> id in s'.vaults && s'.vaults[id].owner == who
    {
      assert InOwnerIndex(s', who, id) <==> InOwnerIndex(s, who, id);
    }
  }

  // ---- Steps ----

  /** Which vault a step registers a holder for, if any. */
  function RegistersFor(e: Effect): Option<Vault.Registration> {
    if e.Deposited? then Some(Vault.Registration(e.holder, e.pool.vault)) else None
  }

  /** What a step does to the directory. */
  ghost predicate DirectoryStep(s: Vault.State, s': Vault.State, e: Effect) {
    match e
    case Deposited(pool, holder, _, _) => SameOwners(s, s') && AddsHolder(s, s', holder, pool.vault)
    case _ => SameHolders(s, s') && (SameOwners(s, s') || exists info :: AddsVault(s, s', info))
  }

  lemma StepDirectory(w: World, step: Step)
    requires FromOutside(step.tx)
    ensures DirectoryStep(w.funds.vault, Next(w, step).funds.vault, EffectOf(w, step))
  {
    hide VaultExecuted, PoolsExecuted, Submitted;
    hide ProtocolAdmin.Executed, AgentRegistry.Executed, StrategyRegistry.Executed, RiskGuard.Executed, ReceiptToken.Executed;
    if Executed(w, step).Ok? {
      match step.call
      case ToVault(call) => VaultCallDirectory(w, step.tx, call);
      case ToPools(call) => PoolsDirectory(w, step.tx, call);
      case ToEngine(i, strategyCall) => SubmitDirectory(w, step.tx, i, strategyCall);
      case _ =>
    }
  }

  lemma VaultCallDirectory(w: World, tx: Tx, call: VaultCall)
    requires VaultExecuted(w, tx, call).Ok?
    ensures DirectoryStep(w.funds.vault, VaultExecuted(w, tx, call).value.0.funds.vault, NoEffect)
  {
    var s, s' := w.funds.vault, VaultExecuted(w, tx, call).value.0.funds.vault;
    match call
    case CreateVault(c) =>
      assert AddsVault(s, s', Vault.Info(tx.sender, c.name, c.purpose, c.assets, c.openDeposits, false, tx.height));
    case _ => assert SameOwners(s, s');
  }

  lemma PoolsDirectory(w: World, tx: Tx, call: PoolCall)
    requires FromOutside(tx) && PoolsExecuted(w, tx, call).Ok?
    ensures var (funds, v) := PoolsExecuted(w, tx, call).value;
            DirectoryStep(w.funds.vault, funds.vault, CallEffect(tx, ToPools(call), v))
  {
    hide Vault.StxDeposited, Vault.SbtcDeposited, Vault.StxRedeemed, Vault.SbtcRedeemed, Vault.Credited, Vault.Debited;
    hide Vault.PreviewDeposit, Vault.PreviewRedeem;
    var t := w.funds;
    match call
    case DepositStx(id, amount) =>
      var shares, ledger := StxDepositParts(t, w.admin.paused, tx, id, amount);
      CreditedDirectory(t.(ledger := ledger), PoolKey(id, STX), tx.sender, amount, shares);
    case DepositSbtc(id, amount, token, accepts) =>
      var shares, ledger := SbtcDepositParts(t, w.admin.paused, w.guard.approvedSbtc, tx, id, amount, token, accepts);
      CreditedDirectory(t.(ledger := ledger), PoolKey(id, SBTC), tx.sender, amount, shares);
    case RedeemStx(id, shares) =>
      var payout, debited := StxRedeemParts(t, tx, id, shares);
      DebitedShape(t, PoolKey(id, STX), tx.sender, shares, payout);
    case RedeemSbtc(id, shares, token, accepts) =>
      var payout, debited := SbtcRedeemParts(t, w.guard.approvedSbtc, tx, id, shares, token, accepts);
      DebitedShape(t, PoolKey(id, SBTC), tx.sender, shares, payout);
    case ExecuteRebalance(_, _, _, _) => assert false;
  }

  lemma CreditedDirectory(t: Vault.Treasury, pool: PoolKey, holder: Principal, amount: nat, shares: nat)
    requires Vault.Credited(t, pool, holder, amount, shares).Ok?
    ensures DirectoryStep(t.vault, Vault.Credited(t, pool, holder, amount, shares).value.0.vault,
                          Deposited(pool, holder, amount, shares))
    ensures Vault.Credited(t, pool, holder, amount, shares).value.1 == shares
  {
    hide Vault.Credited;
    var vault := CreditedShape(t, pool, holder, amount, shares);
  }

  /** Calls that move funds leave the vaults themselves alone. */
  lemma PoolsKeepVaults(w: World, tx: Tx, call: PoolCall)
    requires FromOutside(tx) && PoolsExecuted(w, tx, call).Ok?
    ensures PoolsExecuted(w, tx, call).value.0.vault.vaults == w.funds.vault.vaults
  {
    hide Vault.StxDeposited, Vault.SbtcDeposited, Vault.StxRedeemed, Vault.SbtcRedeemed, Vault.Credited, Vault.Debited;
    hide Vault.PreviewDeposit, Vault.PreviewRedeem;
    var t := w.funds;
    match call
    case DepositStx(id, amount) =>
      var shares, ledger := StxDepositParts(t, w.admin.paused, tx, id, amount);
      CreditKeepsVaults(t.(ledger := ledger), PoolKey(id, STX), tx.sender, amount, shares);
    case DepositSbtc(id, amount, token, accepts) =>
      var shares, ledger := SbtcDepositParts(t, w.admin.paused, w.guard.approvedSbtc, tx, id, amount, token, accepts);
      CreditKeepsVaults(t.(ledger := ledger), PoolKey(id, SBTC), tx.sender, amount, shares);
    case RedeemStx(id, shares) =>
      var payout, debited := StxRedeemParts(t, tx, id, shares);
      DebitedShape(t, PoolKey(id, STX), tx.sender, shares, payout);
    case RedeemSbtc(id, shares, token, accepts) =>
      var payout, debited := SbtcRedeemParts(t, w.guard.approvedSbtc, tx, id, shares, token, accepts);
      DebitedShape(t, PoolKey(id, SBTC), tx.sender, shares, payout);
    case ExecuteRebalance(_, _, _, _) => assert false;
  }

  lemma CreditKeepsVaults(t: Vault.Treasury, pool: PoolKey, holder: Principal, amount: nat, shares: nat)
    requires Vault.Credited(t, pool, holder, amount, shares).Ok?
    ensures Vault.Credited(t, pool, holder, amount, shares).value.0.vault.vaults == t.vault.vaults
  {
    hide Vault.Credited, Vault.HolderRegistered;
    var vault := CreditedShape(t, pool, holder, amount, shares);
    RegisteredShape(vault, holder, pool.vault);
  }

  lemma SubmitDirectory(w: World, tx: Tx, i: Intent, strategyCall: Vault.StrategyCall)
    requires Submitted(w, tx, i, strategyCall).Ok?
    ensures DirectoryStep(w.funds.vault, Submitted(w, tx, i, strategyCall).value.0.funds.vault,
                          Invested(i.Pool(), i.strategy, i.amount))
  {
    hide Submitted;
    var q, recorded := SubmittedShape(w, tx, i, strategyCall);
  }

  /** No step changes a vault's owner or supported assets, or removes a vault. */
  lemma DirectoryStepKeepsVaults(s: Vault.State, s': Vault.State, e: Effect)
    requires DirectoryExact(s) && DirectoryStep(s, s', e)
    ensures KeepsVaults(s, s')
  {
  }

  lemma DirectoryStepKeepsExact(s: Vault.State, s': Vault.State, e: Effect)
    requires DirectoryExact(s) && DirectoryStep(s, s', e)
    ensures DirectoryExact(s')
  {
    forall who ensures OwnerIndexExact(s', who) && HolderIndexExact(s', who) {
      assert OwnerIndexExact(s, who) && HolderIndexExact(s, who);
      if SameOwners(s, s') {
        SameOwnersKeepIndex(s, s', who);
      } else {
        var info :| AddsVault(s, s', info);
        AddsVaultKeepsOwnerIndex(s, s', info, who);
      }
      match e
      case Deposited(pool, holder, _, _) => AddsHolderKeepsIndex(s, s', holder, pool.vault, who);
      case _ => SameHoldersKeepIndex(s, s', who);
    }
    if !SameOwners(s, s') {
      var info :| AddsVault(s, s', info);
    }
  }

  lemma {:induction false} ReachableDirectory(deployer: Principal, holdings: Ledger.State, steps: seq<Step>, n: nat)
    requires PossibleRun(Genesis(deployer, holdings), steps) && n <= |steps|
    ensures DirectoryExact(StateAt(Genesis(deployer, holdings), steps, n).funds.vault)
  {
    hide Executed, EffectOf, StateAt, Next, PossibleRun, Possible;
    var w0 := Genesis(deployer, holdings);
    if n == 0 {
      RunStart(w0, steps);
    } else {
      var w := StateAt(w0, steps, n - 1);
      ReachableDirectory(deployer, holdings, steps, n - 1);
      RunStep(w0, steps, n - 1);
      StepDirectory(w, steps[n - 1]);
      DirectoryStepKeepsExact(w.funds.vault, Next(w, steps[n - 1]).funds.vault, EffectOf(w, steps[n - 1]));
    }
  }

  // ---- What "registered" means ----

  /** Some step before `n` was a successful deposit by the holder into the vault. */
  ghost predicate EverDeposited(w0: World, steps: seq<Step>, n: nat, holder: Principal, id: nat)
    requires n <= |steps|
  {
    n > 0 &&
    (EverDeposited(w0, steps, n - 1, holder, id)
     || RegistersFor(EffectOf(StateAt(w0, steps, n - 1), steps[n - 1])) == Some(Vault.Registration(holder, id)))
  }

  lemma {:induction false} RegisteredIsHistory(
    deployer: Principal, holdings: Ledger.State, steps: seq<Step>, n: nat, holder: Principal, id: nat)
    requires PossibleRun(Genesis(deployer, holdings), steps) && n <= |steps|
    ensures var w0 := Genesis(deployer, holdings);
            Vault.Registration(holder, id) in StateAt(w0, steps, n).funds.vault.holderRegistered
            <==> EverDeposited(w0, steps, n, holder, id)
  {
    hide Executed, EffectOf, StateAt, Next, PossibleRun, Possible;
    var w0 := Genesis(deployer, holdings);
    if n == 0 {
      RunStart(w0, steps);
    } else {
      RegisteredIsHistory(deployer, holdings, steps, n - 1, holder, id);
      RunStep(w0, steps, n - 1);
      StepDirectory(StateAt(w0, steps, n - 1), steps[n - 1]);
    }
  }

  /** A holder's index lists precisely the vaults the holder ever deposited into. */
  lemma HolderIndexIsHistory(
    deployer: Principal, holdings: Ledger.State, steps: seq<Step>, n: nat, holder: Principal, id: nat)
    requires PossibleRun(Genesis(deployer, holdings), steps) && n <= |steps|
    ensures var w0 := Genesis(deployer, holdings);
            InHolderIndex(StateAt(w0, steps, n).funds.vault, holder, id) <==> EverDeposited(w0, steps, n, holder, id)
  {
    hide Executed, EffectOf;
    ReachableDirectory(deployer, holdings, steps, n);
    assert HolderIndexExact(StateAt(Genesis(deployer, holdings), steps, n).funds.vault, holder);
    RegisteredIsHistory(deployer, holdings, steps, n, holder, id);
  }

  /** Whoever holds shares of a pool finds its vault in the holder index, and the
      vault exists and supports the pool's asset. */
  ghost predicate SharesAreListed(s: Vault.State, b: Books) {
    && (forall pool, holder :: b.SharesOf(pool, holder) > 0 ==> Vault.Registration(holder, pool.vault) in s.holderRegistered)
    && (forall pool :: b.SupplyOf(pool) > 0 ==> Vault.SupportsAsset(s, pool))
  }

  lemma StepKeepsListed(w: World, step: Step)
    requires FromOutside(step.tx) && DirectoryExact(w.funds.vault) && SharesAreListed(w.funds.vault, BooksOf(w))
    ensures SharesAreListed(Next(w, step).funds.vault, BooksOf(Next(w, step)))
  {
    hide Executed;
    StepEffect(w, step);
    StepDirectory(w, step);
    DirectoryStepKeepsVaults(w.funds.vault, Next(w, step).funds.vault, EffectOf(w, step));
    DepositsAreSupported(w, step);
    AppliedKeepsListed(w.funds.vault, Next(w, step).funds.vault, BooksOf(w), EffectOf(w, step));
  }

  lemma AppliedKeepsListed(s: Vault.State, s': Vault.State, b: Books, e: Effect)
    requires Allowed(b, e) && DirectoryStep(s, s', e) && KeepsVaults(s, s') && SharesAreListed(s, b)
    requires e.Deposited? ==> Vault.SupportsAsset(s, e.pool)
    ensures SharesAreListed(s', Applied(b, e))
  {
    hide Pricing.ComputeDepositShares, Pricing.ComputeRedeemAssets;
    var b' := Applied(b, e);
    forall pool, holder | b'.SharesOf(pool, holder) > 0
      ensures Vault.Registration(holder, pool.vault) in s'.holderRegistered
    {
      if b.SharesOf(pool, holder) == 0 {
        assert e.Deposited? && e.pool == pool && e.holder == holder;
      }
    }
    forall pool | b'.SupplyOf(pool) > 0
      ensures Vault.SupportsAsset(s', pool)
    {
      assert b.SupplyOf(pool) > 0 || (e.Deposited? && e.pool == pool);
    }
  }

  lemma DepositsAreSupported(w: World, step: Step)
    ensures EffectOf(w, step).Deposited? ==> Vault.SupportsAsset(w.funds.vault, EffectOf(w, step).pool)
  {
    hide VaultExecuted, PoolsExecuted, Submitted;
    hide ProtocolAdmin.Executed, AgentRegistry.Executed, StrategyRegistry.Executed, RiskGuard.Executed, ReceiptToken.Executed;
    if EffectOf(w, step).Deposited? {
      PoolDepositsAreSupported(w, step.tx, step.call.pools);
    }
  }

  lemma PoolDepositsAreSupported(w: World, tx: Tx, call: PoolCall)
    requires PoolsExecuted(w, tx, call).Ok?
    ensures call.DepositStx? ==> Vault.SupportsAsset(w.funds.vault, PoolKey(call.id, STX))
    ensures call.DepositSbtc? ==> Vault.SupportsAsset(w.funds.vault, PoolKey(call.id, SBTC))
  {
    hide Vault.Credited, Pricing.ComputeDepositShares;
  }

  lemma {:induction false} ReachableListed(deployer: Principal, holdings: Ledger.State, steps: seq<Step>, n: nat)
    requires PossibleRun(Genesis(deployer, holdings), steps) && n <= |steps|
    ensures var w := StateAt(Genesis(deployer, holdings), steps, n);
            SharesAreListed(w.funds.vault, BooksOf(w))
  {
    hide Executed, EffectOf, StateAt, Next, PossibleRun, Possible;
    var w0 := Genesis(deployer, holdings);
    if n == 0 {
      RunStart(w0, steps);
    } else {
      ReachableListed(deployer, holdings, steps, n - 1);
      ReachableDirectory(deployer, holdings, steps, n - 1);
      RunStep(w0, steps, n - 1);
      StepKeepsListed(StateAt(w0, steps, n - 1), steps[n - 1]);
    }
  }
}
