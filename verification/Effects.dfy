/** What one step of the protocol does to the books of the pools. Of all calls,
    only a deposit, a redemption or an executed intent touches them, and each
    touches exactly one pool. */
module Effects {
  import opened Clarity
  import opened Engine
  import opened Protocol
  import AgentRegistry
  import Ledger
  import Pricing
  import ProtocolAdmin
  import ReceiptToken
  import RiskGuard
  import StrategyRegistry
  import Vault

  /** The five accounting maps, spread over the vault and the receipt token. */
  datatype Books = Books(
    idle: map<PoolKey, nat>, total: map<PoolKey, nat>, allocations: map<AllocationKey, nat>,
    balances: map<ShareKey, nat>, supplies: map<PoolKey, nat>)
  {
    function IdleOf(pool: PoolKey): nat {
      Lookup(idle, pool)
    }

    function TotalOf(pool: PoolKey): nat {
      Lookup(total, pool)
    }

    function SupplyOf(pool: PoolKey): nat {
      Lookup(supplies, pool)
    }

    function SharesOf(pool: PoolKey, holder: Principal): nat {
      Lookup(balances, ShareKey(pool, holder))
    }

    function AllocationOf(pool: PoolKey, strategy: nat): nat {
      Lookup(allocations, AllocationKey(pool, strategy))
    }
  }

  function FundsBooks(t: Vault.Treasury): Books {
    Books(t.vault.idle, t.vault.total, t.vault.allocations, t.receipts.balances, t.receipts.supplies)
  }

  function BooksOf(w: World): Books {
    FundsBooks(w.funds)
  }

  datatype Effect =
    | NoEffect
    | Deposited(pool: PoolKey, holder: Principal, amount: nat, shares: nat)
    | Redeemed(pool: PoolKey, holder: Principal, shares: nat, amount: nat)
    | Invested(pool: PoolKey, strategy: nat, amount: nat)
  {
    predicate Touches(p: PoolKey) {
      !NoEffect? && pool == p
    }
  }

  /** What a successful call that answered `v` did. */
  function CallEffect(tx: Tx, call: Call, v: nat): Effect {
    match call
    case ToPools(DepositStx(id, amount)) => Deposited(PoolKey(id, STX), tx.sender, amount, v)
    case ToPools(DepositSbtc(id, amount, _, _)) => Deposited(PoolKey(id, SBTC), tx.sender, amount, v)
    case ToPools(RedeemStx(id, shares)) => Redeemed(PoolKey(id, STX), tx.sender, shares, v)
    case ToPools(RedeemSbtc(id, shares, _, _)) => Redeemed(PoolKey(id, SBTC), tx.sender, shares, v)
    case ToEngine(i, _) => Invested(i.Pool(), i.strategy, i.amount)
    case _ => NoEffect
  }

  /** What a step did, read off its call and its answer. */
  function EffectOf(w: World, step: Step): Effect {
    var r := Executed(w, step);
    if r.Ok? then CallEffect(step.tx, step.call, r.value.1) else NoEffect
  }

  /** The effect is one the books allow: priced by the pool, and within what the
      holder and the pool have. */
  predicate Allowed(b: Books, e: Effect) {
    match e
    case NoEffect => true
    case Deposited(pool, _, amount, shares) =>
      && IsValidAsset(pool.asset)
      && Pricing.ComputeDepositShares(b.SupplyOf(pool), b.TotalOf(pool), amount, Vault.MinInitialDepositFor(pool.asset)) == Ok(shares)
    case Redeemed(pool, holder, shares, amount) =>
      && IsValidAsset(pool.asset)
      && Pricing.ComputeRedeemAssets(shares, b.SupplyOf(pool), b.TotalOf(pool)) == Ok(amount)
      && shares <= b.SharesOf(pool, holder)
      && shares <= b.SupplyOf(pool)
      && amount <= b.IdleOf(pool)
      && amount <= b.TotalOf(pool)
    case Invested(pool, _, amount) => IsValidAsset(pool.asset) && 0 < amount <= b.IdleOf(pool)
  }

  function Applied(b: Books, e: Effect): Books
    requires Allowed(b, e)
  {
    match e
    case NoEffect => b
    case Deposited(pool, holder, amount, shares) =>
      b.(idle := b.idle[pool := b.IdleOf(pool) + amount],
         total := b.total[pool := b.TotalOf(pool) + amount],
         balances := b.balances[ShareKey(pool, holder) := b.SharesOf(pool, holder) + shares],
         supplies := b.supplies[pool := b.SupplyOf(pool) + shares])
    case Redeemed(pool, holder, shares, amount) =>
      b.(idle := b.idle[pool := b.IdleOf(pool) - amount],
         total := b.total[pool := b.TotalOf(pool) - amount],
         balances := b.balances[ShareKey(pool, holder) := b.SharesOf(pool, holder) - shares],
         supplies := b.supplies[pool := b.SupplyOf(pool) - shares])
    case Invested(pool, strategy, amount) =>
      b.(idle := b.idle[pool := b.IdleOf(pool) - amount],
         allocations := b.allocations[AllocationKey(pool, strategy) := b.AllocationOf(pool, strategy) + amount])
  }

  /** The books `b` become `b'` by exactly the effect `e`, which they allow. */
  ghost predicate Becomes(b: Books, e: Effect, b': Books) {
    Allowed(b, e) && b' == Applied(b, e)
  }

  /** Every transaction from outside, whatever function of whatever contract it
      calls, does to the books exactly what its effect says. */
  lemma StepEffect(w: World, step: Step)
    requires FromOutside(step.tx)
    ensures Becomes(BooksOf(w), EffectOf(w, step), BooksOf(Next(w, step)))
  {
    hide VaultExecuted, PoolsExecuted, Submitted;
    hide ProtocolAdmin.Executed, AgentRegistry.Executed, StrategyRegistry.Executed, RiskGuard.Executed, ReceiptToken.Executed;
    if Executed(w, step).Ok? {
      match step.call
      case ToVault(call) => VaultCallEffect(w, step.tx, call);
      case ToPools(call) => PoolsEffect(w, step.tx, call);
      case ToEngine(i, strategyCall) => SubmitEffect(w, step.tx, i, strategyCall);
      case ToReceipts(call) => ReceiptsFromOutside(w.funds.receipts, step.tx, call);
      case _ =>
    }
  }

  /** Nobody but the vault contract can mint, burn or move shares. */
  lemma ReceiptsFromOutside(s: ReceiptToken.State, tx: Tx, call: ReceiptToken.Call)
    requires FromOutside(tx)
    ensures ReceiptToken.Executed(s, tx, call) == Err(if call.Transfer? then 704 else 700)
  {
  }

  lemma VaultCallEffect(w: World, tx: Tx, call: VaultCall)
    requires VaultExecuted(w, tx, call).Ok?
    ensures BooksOf(VaultExecuted(w, tx, call).value.0) == BooksOf(w)
  {
  }

  lemma SubmitEffect(w: World, tx: Tx, i: Intent, strategyCall: Vault.StrategyCall)
    requires Submitted(w, tx, i, strategyCall).Ok?
    ensures Becomes(BooksOf(w), Invested(i.Pool(), i.strategy, i.amount), BooksOf(Submitted(w, tx, i, strategyCall).value.0))
  {
    hide Submitted;
    var q, recorded := SubmittedShape(w, tx, i, strategyCall);
  }

  lemma PoolsEffect(w: World, tx: Tx, call: PoolCall)
    requires FromOutside(tx) && PoolsExecuted(w, tx, call).Ok?
    ensures var (funds, v) := PoolsExecuted(w, tx, call).value;
            Becomes(BooksOf(w), CallEffect(tx, ToPools(call), v), FundsBooks(funds))
  {
    hide Vault.StxDeposited, Vault.SbtcDeposited, Vault.StxRedeemed, Vault.SbtcRedeemed, Vault.Credited, Vault.Debited;
    hide Vault.PreviewDeposit, Vault.PreviewRedeem, Becomes;
    var t := w.funds;
    match call
    case DepositStx(id, amount) =>
      var shares, ledger := StxDepositParts(t, w.admin.paused, tx, id, amount);
      CreditedEffect(t, ledger, PoolKey(id, STX), tx.sender, amount, shares);
    case DepositSbtc(id, amount, token, accepts) =>
      var shares, ledger := SbtcDepositParts(t, w.admin.paused, w.guard.approvedSbtc, tx, id, amount, token, accepts);
      CreditedEffect(t, ledger, PoolKey(id, SBTC), tx.sender, amount, shares);
    case RedeemStx(id, shares) =>
      var payout, debited := StxRedeemParts(t, tx, id, shares);
      DebitedEffect(t, PoolKey(id, STX), tx.sender, shares, payout);
    case RedeemSbtc(id, shares, token, accepts) =>
      var payout, debited := SbtcRedeemParts(t, w.guard.approvedSbtc, tx, id, shares, token, accepts);
      DebitedEffect(t, PoolKey(id, SBTC), tx.sender, shares, payout);
    case ExecuteRebalance(_, _, _, _) => assert false;
  }

  // ---- What a successful deposit or redemption is made of ----

  lemma StxDepositParts(t: Vault.Treasury, paused: bool, tx: Tx, id: nat, amount: nat)
    returns (shares: nat, ledger: Ledger.State)
    requires Vault.StxDeposited(t, paused, tx, id, amount).Ok?
    ensures Vault.PreviewDeposit(t, PoolKey(id, STX), amount) == Ok(shares)
    ensures Ledger.StxMoved(t.ledger, amount, tx.sender, VaultContract) == Some(ledger)
    ensures Vault.StxDeposited(t, paused, tx, id, amount)
         == Vault.Credited(t.(ledger := ledger), PoolKey(id, STX), tx.sender, amount, shares)
  {
    hide Vault.Credited;
    ledger := Ledger.StxMoved(t.ledger, amount, tx.sender, VaultContract).value;
    shares := Vault.PreviewDeposit(t, PoolKey(id, STX), amount).value;
  }

  lemma SbtcDepositParts(
    t: Vault.Treasury, paused: bool, approved: Option<Principal>, tx: Tx, id: nat, amount: nat,
    token: Principal, accepts: bool) returns (shares: nat, ledger: Ledger.State)
    requires Vault.SbtcDeposited(t, paused, approved, tx, id, amount, token, accepts).Ok?
    ensures approved == Some(token)
    ensures Vault.PreviewDeposit(t, PoolKey(id, SBTC), amount) == Ok(shares)
    ensures Ledger.TokenMoved(t.ledger, token, accepts, amount, tx.sender, VaultContract) == Some(ledger)
    ensures Vault.SbtcDeposited(t, paused, approved, tx, id, amount, token, accepts)
         == Vault.Credited(t.(ledger := ledger), PoolKey(id, SBTC), tx.sender, amount, shares)
  {
    hide Vault.Credited;
    ledger := Ledger.TokenMoved(t.ledger, token, accepts, amount, tx.sender, VaultContract).value;
    shares := Vault.PreviewDeposit(t, PoolKey(id, SBTC), amount).value;
  }

  lemma StxRedeemParts(t: Vault.Treasury, tx: Tx, id: nat, shares: nat)
    returns (payout: nat, debited: Vault.Treasury)
    requires Vault.StxRedeemed(t, tx, id, shares).Ok?
    ensures Vault.PreviewRedeem(t, PoolKey(id, STX), shares) == Ok(payout)
    ensures Vault.Debited(t, PoolKey(id, STX), tx.sender, shares, payout) == Ok(debited)
    ensures Ledger.StxMoved(t.ledger, payout, VaultContract, tx.sender).Some?
    ensures Vault.StxRedeemed(t, tx, id, shares)
         == Ok((debited.(ledger := Ledger.StxMoved(t.ledger, payout, VaultContract, tx.sender).value), payout))
  {
    payout := Vault.PreviewRedeem(t, PoolKey(id, STX), shares).value;
    debited := Vault.Debited(t, PoolKey(id, STX), tx.sender, shares, payout).value;
  }

  lemma SbtcRedeemParts(
    t: Vault.Treasury, approved: Option<Principal>, tx: Tx, id: nat, shares: nat, token: Principal, accepts: bool)
    returns (payout: nat, debited: Vault.Treasury)
    requires Vault.SbtcRedeemed(t, approved, tx, id, shares, token, accepts).Ok?
    ensures approved == Some(token)
    ensures Vault.PreviewRedeem(t, PoolKey(id, SBTC), shares) == Ok(payout)
    ensures Vault.Debited(t, PoolKey(id, SBTC), tx.sender, shares, payout) == Ok(debited)
    ensures Ledger.TokenMoved(t.ledger, token, accepts, payout, VaultContract, tx.sender).Some?
    ensures Vault.SbtcRedeemed(t, approved, tx, id, shares, token, accepts)
         == Ok((debited.(ledger := Ledger.TokenMoved(t.ledger, token, accepts, payout, VaultContract, tx.sender).value), payout))
  {
    payout := Vault.PreviewRedeem(t, PoolKey(id, SBTC), shares).value;
    debited := Vault.Debited(t, PoolKey(id, SBTC), tx.sender, shares, payout).value;
  }

  /** A successful submit: the engine's verdict, the checked request, and the only
      four entries that change. */
  lemma SubmittedShape(w: World, tx: Tx, i: Intent, strategyCall: Vault.StrategyCall)
    returns (q: RiskGuard.Request, recorded: RiskGuard.Config)
    requires Submitted(w, tx, i, strategyCall).Ok?
    ensures Evaluate(w, tx, i).Ok? && q == RequestOf(i, Evaluate(w, tx, i).value)
    ensures RiskGuard.CheckIntent(w.guard, w.admin.paused, tx.height, q, ReadingOf(w, i)).Ok?
    ensures i.vault in w.guard.configs && RiskGuard.IsExecutionEnabled(w.guard, tx)
    ensures recorded == w.guard.configs[i.vault].(lastNonce := i.nonce, lastHeight := tx.height)
    ensures IsValidAsset(i.asset) && 0 < i.amount <= w.funds.vault.IdleOf(i.Pool()) && strategyCall.outcome.Some?
    ensures var vault := w.funds.vault;
            Submitted(w, tx, i, strategyCall) == Ok((w.(
              guard := w.guard.(configs := w.guard.configs[i.vault := recorded]),
              funds := w.funds.(
                vault := vault.(
                  idle := vault.idle[i.Pool() := vault.IdleOf(i.Pool()) - i.amount],
                  allocations := vault.allocations[AllocationKey(i.Pool(), i.strategy) :=
                    vault.AllocationOf(i.Pool(), i.strategy) + i.amount]),
                ledger := strategyCall.outcome.value)), TRUE))
  {
    hide Evaluate, RiskGuard.CheckIntent;
    q := RequestOf(i, Evaluate(w, tx, i).value);
    recorded := w.guard.configs[i.vault].(lastNonce := i.nonce, lastHeight := tx.height);
    CheckedAmount(w.guard, w.admin.paused, tx.height, q, ReadingOf(w, i));
  }

  lemma CheckedAmount(g: RiskGuard.State, paused: bool, height: nat, q: RiskGuard.Request, m: RiskGuard.Reading)
    requires RiskGuard.CheckIntent(g, paused, height, q, m).Ok?
    ensures q.vault in g.configs && 0 < q.amount <= m.idle && m.allocation + q.amount <= UINT_MAX
  {
  }

  /** Registering a holder writes the holder index only. */
  lemma RegisteredShape(s: Vault.State, holder: Principal, id: nat)
    requires Vault.HolderRegistered(s, holder, id).Ok?
    ensures var s' := Vault.HolderRegistered(s, holder, id).value;
            s' == s.(holderRegistered := s'.holderRegistered, holderVaults := s'.holderVaults, holderCount := s'.holderCount)
  {
  }

  /** A credit: the pool's two balances, the two share entries and the holder index. */
  lemma CreditedShape(t: Vault.Treasury, pool: PoolKey, holder: Principal, amount: nat, shares: nat)
    returns (vault: Vault.State)
    requires Vault.Credited(t, pool, holder, amount, shares).Ok?
    ensures IsValidAsset(pool.asset)
    ensures vault == t.vault.(idle := t.vault.idle[pool := t.vault.IdleOf(pool) + amount],
                              total := t.vault.total[pool := t.vault.TotalOf(pool) + amount])
    ensures Vault.HolderRegistered(vault, holder, pool.vault).Ok?
    ensures var r := t.receipts;
            Vault.Credited(t, pool, holder, amount, shares) == Ok((
              Vault.Treasury(
                Vault.HolderRegistered(vault, holder, pool.vault).value,
                ReceiptToken.State(r.balances[ShareKey(pool, holder) := r.BalanceOf(pool, holder) + shares],
                                   r.supplies[pool := r.SupplyOf(pool) + shares]),
                t.ledger), shares))
  {
    hide Vault.HolderRegistered;
    vault := t.vault.(idle := t.vault.idle[pool := t.vault.IdleOf(pool) + amount],
                      total := t.vault.total[pool := t.vault.TotalOf(pool) + amount]);
  }

  /** A debit: the pool's two balances and the two share entries, none below zero. */
  lemma DebitedShape(t: Vault.Treasury, pool: PoolKey, holder: Principal, shares: nat, amount: nat)
    requires Vault.Debited(t, pool, holder, shares, amount).Ok?
    ensures IsValidAsset(pool.asset)
    ensures shares <= t.receipts.BalanceOf(pool, holder) && shares <= t.receipts.SupplyOf(pool)
    ensures amount <= t.vault.IdleOf(pool) && amount <= t.vault.TotalOf(pool)
    ensures var r := t.receipts;
            Vault.Debited(t, pool, holder, shares, amount) == Ok(
              Vault.Treasury(
                t.vault.(idle := t.vault.idle[pool := t.vault.IdleOf(pool) - amount],
                         total := t.vault.total[pool := t.vault.TotalOf(pool) - amount]),
                ReceiptToken.State(r.balances[ShareKey(pool, holder) := r.BalanceOf(pool, holder) - shares],
                                   r.supplies[pool := r.SupplyOf(pool) - shares]),
                t.ledger))
  {
  }

  lemma DepositBecomes(b: Books, pool: PoolKey, holder: Principal, amount: nat, shares: nat)
    requires Allowed(b, Deposited(pool, holder, amount, shares))
    ensures Becomes(b, Deposited(pool, holder, amount, shares), Books(
              b.idle[pool := b.IdleOf(pool) + amount], b.total[pool := b.TotalOf(pool) + amount], b.allocations,
              b.balances[ShareKey(pool, holder) := b.SharesOf(pool, holder) + shares],
              b.supplies[pool := b.SupplyOf(pool) + shares]))
  {
    hide Allowed;
  }

  lemma RedemptionBecomes(b: Books, pool: PoolKey, holder: Principal, shares: nat, amount: nat)
    requires shares <= b.SharesOf(pool, holder) && shares <= b.SupplyOf(pool)
    requires amount <= b.IdleOf(pool) && amount <= b.TotalOf(pool)
    requires Allowed(b, Redeemed(pool, holder, shares, amount))
    ensures Becomes(b, Redeemed(pool, holder, shares, amount), Books(
              b.idle[pool := b.IdleOf(pool) - amount], b.total[pool := b.TotalOf(pool) - amount], b.allocations,
              b.balances[ShareKey(pool, holder) := b.SharesOf(pool, holder) - shares],
              b.supplies[pool := b.SupplyOf(pool) - shares]))
  {
    hide Allowed;
  }

  /** An allowed redemption takes nothing below zero. */
  lemma RedemptionBounds(b: Books, pool: PoolKey, holder: Principal, shares: nat, amount: nat)
    requires Allowed(b, Redeemed(pool, holder, shares, amount))
    ensures shares <= b.SharesOf(pool, holder) && shares <= b.SupplyOf(pool)
    ensures amount <= b.IdleOf(pool) && amount <= b.TotalOf(pool)
  {
    hide Pricing.ComputeRedeemAssets;
  }

  lemma DepositAllowed(t: Vault.Treasury, pool: PoolKey, holder: Principal, amount: nat, shares: nat)
    requires Vault.PreviewDeposit(t, pool, amount) == Ok(shares) && IsValidAsset(pool.asset)
    ensures Allowed(FundsBooks(t), Deposited(pool, holder, amount, shares))
  {
    hide Pricing.ComputeDepositShares;
  }

  lemma RedemptionAllowed(t: Vault.Treasury, pool: PoolKey, holder: Principal, shares: nat, amount: nat)
    requires Vault.PreviewRedeem(t, pool, shares) == Ok(amount) && IsValidAsset(pool.asset)
    requires shares <= t.receipts.BalanceOf(pool, holder) && shares <= t.receipts.SupplyOf(pool)
    requires amount <= t.vault.IdleOf(pool) && amount <= t.vault.TotalOf(pool)
    ensures Allowed(FundsBooks(t), Redeemed(pool, holder, shares, amount))
  {
    hide Pricing.ComputeRedeemAssets;
  }

  lemma CreditedEffect(t: Vault.Treasury, ledger: Ledger.State, pool: PoolKey, holder: Principal, amount: nat, shares: nat)
    requires Vault.PreviewDeposit(t, pool, amount) == Ok(shares)
    requires Vault.Credited(t.(ledger := ledger), pool, holder, amount, shares).Ok?
    ensures Becomes(FundsBooks(t), Deposited(pool, holder, amount, shares),
                    FundsBooks(Vault.Credited(t.(ledger := ledger), pool, holder, amount, shares).value.0))
    ensures Vault.Credited(t.(ledger := ledger), pool, holder, amount, shares).value.1 == shares
  {
    hide Vault.Credited, Vault.HolderRegistered, Vault.PreviewDeposit, Allowed, Becomes;
    var vault := CreditedShape(t.(ledger := ledger), pool, holder, amount, shares);
    RegisteredShape(vault, holder, pool.vault);
    DepositAllowed(t, pool, holder, amount, shares);
    DepositBecomes(FundsBooks(t), pool, holder, amount, shares);
  }

  lemma DebitedEffect(t: Vault.Treasury, pool: PoolKey, holder: Principal, shares: nat, amount: nat)
    requires Vault.PreviewRedeem(t, pool, shares) == Ok(amount)
    requires Vault.Debited(t, pool, holder, shares, amount).Ok?
    ensures Becomes(FundsBooks(t), Redeemed(pool, holder, shares, amount),
                    FundsBooks(Vault.Debited(t, pool, holder, shares, amount).value))
    ensures Vault.Debited(t, pool, holder, shares, amount).value.ledger == t.ledger
  {
    hide Vault.Debited, Vault.PreviewRedeem, Allowed, Becomes;
    DebitedShape(t, pool, holder, shares, amount);
    RedemptionAllowed(t, pool, holder, shares, amount);
    RedemptionBecomes(FundsBooks(t), pool, holder, shares, amount);
  }

  /** Nothing about the pool differs between the two books. */
  ghost predicate SamePool(b: Books, b': Books, pool: PoolKey) {
    && b'.IdleOf(pool) == b.IdleOf(pool)
    && b'.TotalOf(pool) == b.TotalOf(pool)
    && b'.SupplyOf(pool) == b.SupplyOf(pool)
    && (forall h :: b'.SharesOf(pool, h) == b.SharesOf(pool, h))
    && (forall s :: b'.AllocationOf(pool, s) == b.AllocationOf(pool, s))
  }

  lemma AppliedLeavesOthers(b: Books, e: Effect, pool: PoolKey)
    requires Allowed(b, e) && !e.Touches(pool)
    ensures SamePool(b, Applied(b, e), pool)
  {
  }

  /** A step leaves every pool alone except the one its effect names. */
  lemma OtherPoolsUntouched(w: World, step: Step, pool: PoolKey)
    requires FromOutside(step.tx) && !EffectOf(w, step).Touches(pool)
    ensures SamePool(BooksOf(w), BooksOf(Next(w, step)), pool)
  {
    hide Executed;
    StepEffect(w, step);
    AppliedLeavesOthers(BooksOf(w), EffectOf(w, step), pool);
  }
}
