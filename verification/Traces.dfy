/** Properties of whole interleavings: no intent is replayed, executions keep
    their distance, and the limits an execution respected keep holding until
    somebody redeems. All of them start from an arbitrary state. */
module Traces {
  import opened Clarity
  import opened Effects
  import opened Engine
  import opened Protocol
  import Accounting
  import AgentRegistry
  import Pricing
  import ProtocolAdmin
  import ReceiptToken
  import RiskGuard
  import StrategyRegistry
  import Vault

  // ---- Executions of one vault ----

  /** Step `i` executed an intent for the vault. */
  predicate Executes(w: World, step: Step, vault: nat) {
    step.call.ToEngine? && step.call.intent.vault == vault && Executed(w, step).Ok?
  }

  predicate ExecutedAt(w0: World, steps: seq<Step>, i: nat, vault: nat) {
    i < |steps| && Executes(StateAt(w0, steps, i), steps[i], vault)
  }

  /** The vault's nonce and last execution height are as before. */
  ghost predicate KeepsRecord(g: RiskGuard.State, g': RiskGuard.State, vault: nat) {
    vault in g.configs ==>
      && vault in g'.configs
      && g'.configs[vault].lastNonce == g.configs[vault].lastNonce
      && g'.configs[vault].lastHeight == g.configs[vault].lastHeight
  }

  /** What an execution checked and what it recorded. */
  ghost predicate Records(g: RiskGuard.State, g': RiskGuard.State, step: Step, vault: nat)
    requires step.call.ToEngine?
  {
    && vault in g.configs && vault in g'.configs
    && g.configs[vault].lastNonce < step.call.intent.nonce == g'.configs[vault].lastNonce
    && g'.configs[vault].lastHeight == step.tx.height
    && (g.configs[vault].lastHeight == 0
        || step.tx.height >= g.configs[vault].lastHeight + g.configs[vault].params.cooldown)
  }

  /** Only an execution writes the record; configuration changes, autonomy toggles
      and everything else leave it alone. */
  lemma StepRecord(w: World, step: Step, vault: nat)
    requires FromOutside(step.tx)
    ensures if Executes(w, step, vault) then Records(w.guard, Next(w, step).guard, step, vault)
            else KeepsRecord(w.guard, Next(w, step).guard, vault)
  {
    hide VaultExecuted, PoolsExecuted, Submitted;
    hide ProtocolAdmin.Executed, AgentRegistry.Executed, StrategyRegistry.Executed, RiskGuard.Executed, ReceiptToken.Executed;
    if Executed(w, step).Ok? {
      match step.call
      case ToGuard(call) => GuardRecord(w, step.tx, call, vault);
      case ToVault(call) => VaultRecord(w, step.tx, call, vault);
      case ToEngine(i, strategyCall) => SubmitRecord(w, step.tx, i, strategyCall, vault);
      case _ =>
    }
  }

  lemma GuardRecord(w: World, tx: Tx, call: RiskGuard.Call, vault: nat)
    requires FromOutside(tx) && RiskGuard.Executed(w.guard, tx, w.admin.admin, w.admin.paused, call).Ok?
    ensures KeepsRecord(w.guard, RiskGuard.Executed(w.guard, tx, w.admin.admin, w.admin.paused, call).value.0, vault)
  {
  }

  lemma VaultRecord(w: World, tx: Tx, call: VaultCall, vault: nat)
    requires VaultExecuted(w, tx, call).Ok?
    ensures KeepsRecord(w.guard, VaultExecuted(w, tx, call).value.0.guard, vault)
  {
  }

  lemma SubmitRecord(w: World, tx: Tx, i: Intent, strategyCall: Vault.StrategyCall, vault: nat)
    requires Submitted(w, tx, i, strategyCall).Ok?
    ensures var g' := Submitted(w, tx, i, strategyCall).value.0.guard;
            if i.vault == vault then Records(w.guard, g', Step(tx, ToEngine(i, strategyCall)), vault)
            else KeepsRecord(w.guard, g', vault)
  {
    hide Submitted;
    var q, recorded := SubmittedShape(w, tx, i, strategyCall);
    CheckedTime(w.guard, w.admin.paused, tx.height, q, ReadingOf(w, i));
    hide RiskGuard.CheckIntent;
  }

  /** What an `(ok true)` of check-intent says about nonce and cooldown. */
  lemma CheckedTime(g: RiskGuard.State, paused: bool, height: nat, q: RiskGuard.Request, m: RiskGuard.Reading)
    requires RiskGuard.CheckIntent(g, paused, height, q, m).Ok?
    ensures q.vault in g.configs
    ensures var cfg := g.configs[q.vault];
            q.nonce > cfg.lastNonce && (cfg.lastHeight == 0 || height >= cfg.lastHeight + cfg.params.cooldown)
  {
  }

  /** From `i` to `j` the recorded nonce never falls, and without an execution in
      between the record does not move at all. */
  lemma {:induction false} RecordBetween(w0: World, steps: seq<Step>, i: nat, j: nat, vault: nat)
    requires PossibleRun(w0, steps) && i <= j <= |steps|
    requires vault in StateAt(w0, steps, i).guard.configs
    ensures var g, g' := StateAt(w0, steps, i).guard, StateAt(w0, steps, j).guard;
            && vault in g'.configs
            && g.configs[vault].lastNonce <= g'.configs[vault].lastNonce
            && ((forall k :: i <= k < j ==> !ExecutedAt(w0, steps, k, vault)) ==> KeepsRecord(g, g', vault))
    decreases j - i
  {
    hide Executed, StateAt, Next, PossibleRun, Possible, Executes;
    if i < j {
      RecordBetween(w0, steps, i, j - 1, vault);
      RunStep(w0, steps, j - 1);
      StepRecord(StateAt(w0, steps, j - 1), steps[j - 1], vault);
      assert ExecutedAt(w0, steps, j - 1, vault) <==> Executes(StateAt(w0, steps, j - 1), steps[j - 1], vault);
    }
  }

  function NonceAt(steps: seq<Step>, i: nat): nat
    requires i < |steps| && steps[i].call.ToEngine?
  {
    steps[i].call.intent.nonce
  }

  /** No replay: the nonces a vault executes strictly increase over any run, so no
      (vault, nonce) pair executes twice. */
  lemma NoReplay(w0: World, steps: seq<Step>, i: nat, j: nat, vault: nat)
    requires PossibleRun(w0, steps) && i < j
    requires ExecutedAt(w0, steps, i, vault) && ExecutedAt(w0, steps, j, vault)
    ensures NonceAt(steps, i) < NonceAt(steps, j)
  {
    hide Executed, StateAt, Next, PossibleRun, Possible, Executes;
    RunStep(w0, steps, i);
    StepRecord(StateAt(w0, steps, i), steps[i], vault);
    RecordBetween(w0, steps, i + 1, j, vault);
    RunStep(w0, steps, j);
    StepRecord(StateAt(w0, steps, j), steps[j], vault);
  }

  /** A vault that executed the largest uint as its nonce is finished: in any
      continuation of the run, whatever is configured and whoever asks, no intent a
      call can carry is evaluated or submitted successfully. */
  lemma NonceExhausted(
    w0: World, steps: seq<Step>, i: nat, j: nat, tx: Tx, intent: Intent, strategyCall: Vault.StrategyCall)
    requires PossibleRun(w0, steps) && i <= j <= |steps| && intent.nonce <= UINT_MAX
    requires intent.vault in StateAt(w0, steps, i).guard.configs
    requires StateAt(w0, steps, i).guard.configs[intent.vault].lastNonce >= UINT_MAX
    ensures !Evaluate(StateAt(w0, steps, j), tx, intent).Ok?
    ensures !Submitted(StateAt(w0, steps, j), tx, intent, strategyCall).Ok?
  {
    hide StateAt, PossibleRun, RiskGuard.CheckIntent;
    var w := StateAt(w0, steps, j);
    RecordBetween(w0, steps, i, j, intent.vault);
    if Evaluate(w, tx, intent).Ok? {
      CheckedTime(w.guard, w.admin.paused, tx.height, RequestOf(intent, Evaluate(w, tx, intent).value), ReadingOf(w, intent));
      assert false;
    }
  }

  /** Two successive executions of a vault are at least the cooldown apart that is
      configured when the second one executes. (Height 0 means "never executed".) */
  lemma CooldownBetweenExecutions(w0: World, steps: seq<Step>, i: nat, j: nat, vault: nat)
    requires PossibleRun(w0, steps) && i < j
    requires ExecutedAt(w0, steps, i, vault) && ExecutedAt(w0, steps, j, vault)
    requires forall k :: i < k < j ==> !ExecutedAt(w0, steps, k, vault)
    ensures var g := StateAt(w0, steps, j).guard;
            && vault in g.configs
            && (steps[i].tx.height > 0 ==> steps[j].tx.height >= steps[i].tx.height + g.configs[vault].params.cooldown)
  {
    hide Executed, StateAt, Next, PossibleRun, Possible, Executes;
    RunStep(w0, steps, i);
    StepRecord(StateAt(w0, steps, i), steps[i], vault);
    RecordBetween(w0, steps, i + 1, j, vault);
    RunStep(w0, steps, j);
    StepRecord(StateAt(w0, steps, j), steps[j], vault);
  }

  // ---- Limits ----

  /** floor(part * 10000 / total), the share check-intent computes. */
  function ShareBps(part: nat, total: nat): nat
    requires total > 0
  {
    part * BPS / total
  }

  /** The strategy's floored share of the pool is within `cap`. */
  predicate WithinCap(b: Books, pool: PoolKey, strategy: nat, cap: nat) {
    b.TotalOf(pool) > 0 && ShareBps(b.AllocationOf(pool, strategy), b.TotalOf(pool)) <= cap
  }

  /** The floored idle share of the pool is at least `floor`. */
  predicate AboveFloor(b: Books, pool: PoolKey, floor: nat) {
    b.TotalOf(pool) > 0 && b.IdleOf(pool) <= b.TotalOf(pool) && ShareBps(b.IdleOf(pool), b.TotalOf(pool)) >= floor
  }

  /** The cap an execution is checked against. */
  function CapOf(w: World, i: Intent): nat
    requires i.vault in w.guard.configs
  {
    var own := w.guard.configs[i.vault].params.maxExposureBps;
    var protocol := StrategyRegistry.MaxAllocationBps(w.registry, i.strategy);
    if own < protocol then own else protocol
  }

  function FloorOf(w: World, i: Intent): nat
    requires i.vault in w.guard.configs
  {
    w.guard.configs[i.vault].params.minIdleBps
  }

  /** Right after an execution its strategy is within the cap and its pool above
      the floor then in force. */
  lemma ExecutionRespectsLimits(w: World, step: Step, vault: nat)
    requires Executes(w, step, vault) && BooksOf(w).IdleOf(step.call.intent.Pool()) <= BooksOf(w).TotalOf(step.call.intent.Pool())
    ensures vault in w.guard.configs
    ensures var i := step.call.intent;
            && WithinCap(BooksOf(Next(w, step)), i.Pool(), i.strategy, CapOf(w, i))
            && AboveFloor(BooksOf(Next(w, step)), i.Pool(), FloorOf(w, i))
  {
    hide VaultExecuted, PoolsExecuted, Submitted;
    hide ProtocolAdmin.Executed, AgentRegistry.Executed, StrategyRegistry.Executed, RiskGuard.Executed, ReceiptToken.Executed;
    SubmitRespectsLimits(w, step.tx, step.call.intent, step.call.strategyCall);
  }

  lemma SubmitRespectsLimits(w: World, tx: Tx, i: Intent, strategyCall: Vault.StrategyCall)
    requires Submitted(w, tx, i, strategyCall).Ok? && BooksOf(w).IdleOf(i.Pool()) <= BooksOf(w).TotalOf(i.Pool())
    ensures i.vault in w.guard.configs
    ensures var b' := BooksOf(Submitted(w, tx, i, strategyCall).value.0);
            WithinCap(b', i.Pool(), i.strategy, CapOf(w, i)) && AboveFloor(b', i.Pool(), FloorOf(w, i))
  {
    hide Submitted, RiskGuard.CheckIntent;
    var q, recorded := SubmittedShape(w, tx, i, strategyCall);
    CheckedLimits(w.guard, w.admin.paused, tx.height, q, ReadingOf(w, i));
  }

  /** What an `(ok true)` of check-intent says about the two shares. */
  lemma CheckedLimits(g: RiskGuard.State, paused: bool, height: nat, q: RiskGuard.Request, m: RiskGuard.Reading)
    requires RiskGuard.CheckIntent(g, paused, height, q, m).Ok?
    ensures q.vault in g.configs && m.total > 0 && q.amount <= m.idle
    ensures ShareBps(m.allocation + q.amount, m.total) <= g.configs[q.vault].params.maxExposureBps
    ensures ShareBps(m.allocation + q.amount, m.total) <= m.protocolCapBps
    ensures ShareBps(m.idle - q.amount, m.total) >= g.configs[q.vault].params.minIdleBps
  {
  }

  /** A deposit or an execution into another strategy can only shrink a strategy's share. */
  lemma EffectKeepsCap(b: Books, e: Effect, pool: PoolKey, strategy: nat, cap: nat)
    requires Allowed(b, e) && WithinCap(b, pool, strategy, cap)
    requires !(e.Redeemed? && e.pool == pool)
    requires !(e.Invested? && e.pool == pool && e.strategy == strategy)
    ensures WithinCap(Applied(b, e), pool, strategy, cap)
  {
    hide Pricing.ComputeDepositShares, Pricing.ComputeRedeemAssets;
    if e.Deposited? && e.pool == pool {
      var x, t := b.AllocationOf(pool, strategy) * BPS, b.TotalOf(pool);
      Pricing.MulLe(t, t + e.amount, x);
      Pricing.FloorMonotone(x, t + e.amount, x, t);
    }
  }

  /** A deposit can only raise the idle share. */
  lemma EffectKeepsFloor(b: Books, e: Effect, pool: PoolKey, floor: nat)
    requires Allowed(b, e) && AboveFloor(b, pool, floor)
    requires !((e.Redeemed? || e.Invested?) && e.pool == pool)
    ensures AboveFloor(Applied(b, e), pool, floor)
  {
    hide Pricing.ComputeDepositShares, Pricing.ComputeRedeemAssets;
    if e.Deposited? && e.pool == pool {
      DepositRaisesIdleShare(b.IdleOf(pool), b.TotalOf(pool), e.amount);
    }
  }

  lemma DepositRaisesIdleShare(idle: nat, total: nat, amount: nat)
    requires 0 < total && idle <= total
    ensures ShareBps(idle, total) <= ShareBps(idle + amount, total + amount)
  {
    Pricing.MulLe(idle, total, amount * BPS);
    assert (idle * BPS) * (total + amount) == idle * BPS * total + idle * (amount * BPS);
    assert ((idle + amount) * BPS) * total == idle * BPS * total + total * (amount * BPS);
    Pricing.FloorMonotone(idle * BPS, total, (idle + amount) * BPS, total + amount);
  }

  predicate RedeemsFrom(w0: World, steps: seq<Step>, k: nat, pool: PoolKey)
    requires k < |steps|
  {
    var e := EffectOf(StateAt(w0, steps, k), steps[k]);
    e.Redeemed? && e.pool == pool
  }

  predicate InvestsInto(w0: World, steps: seq<Step>, k: nat, pool: PoolKey, strategy: nat)
    requires k < |steps|
  {
    var e := EffectOf(StateAt(w0, steps, k), steps[k]);
    e.Invested? && e.pool == pool && e.strategy == strategy
  }

  predicate InvestsFrom(w0: World, steps: seq<Step>, k: nat, pool: PoolKey)
    requires k < |steps|
  {
    var e := EffectOf(StateAt(w0, steps, k), steps[k]);
    e.Invested? && e.pool == pool
  }

  lemma {:induction false} CapHoldsBetween(w0: World, steps: seq<Step>, i: nat, j: nat, pool: PoolKey, strategy: nat, cap: nat)
    requires PossibleRun(w0, steps) && i <= j <= |steps|
    requires WithinCap(BooksOf(StateAt(w0, steps, i)), pool, strategy, cap)
    requires forall k :: i <= k < j ==> !RedeemsFrom(w0, steps, k, pool) && !InvestsInto(w0, steps, k, pool, strategy)
    ensures WithinCap(BooksOf(StateAt(w0, steps, j)), pool, strategy, cap)
    decreases j - i
  {
    hide Executed, EffectOf, StateAt, Next, PossibleRun, Possible, WithinCap;
    if i < j {
      CapHoldsBetween(w0, steps, i, j - 1, pool, strategy, cap);
      var w := StateAt(w0, steps, j - 1);
      RunStep(w0, steps, j - 1);
      StepEffect(w, steps[j - 1]);
      assert !RedeemsFrom(w0, steps, j - 1, pool) && !InvestsInto(w0, steps, j - 1, pool, strategy);
      EffectKeepsCap(BooksOf(w), EffectOf(w, steps[j - 1]), pool, strategy, cap);
    }
  }

  lemma {:induction false} FloorHoldsBetween(w0: World, steps: seq<Step>, i: nat, j: nat, pool: PoolKey, floor: nat)
    requires PossibleRun(w0, steps) && i <= j <= |steps|
    requires AboveFloor(BooksOf(StateAt(w0, steps, i)), pool, floor)
    requires forall k :: i <= k < j ==> !RedeemsFrom(w0, steps, k, pool) && !InvestsFrom(w0, steps, k, pool)
    ensures AboveFloor(BooksOf(StateAt(w0, steps, j)), pool, floor)
    decreases j - i
  {
    hide Executed, EffectOf, StateAt, Next, PossibleRun, Possible, AboveFloor;
    if i < j {
      FloorHoldsBetween(w0, steps, i, j - 1, pool, floor);
      var w := StateAt(w0, steps, j - 1);
      RunStep(w0, steps, j - 1);
      StepEffect(w, steps[j - 1]);
      assert !RedeemsFrom(w0, steps, j - 1, pool) && !InvestsFrom(w0, steps, j - 1, pool);
      EffectKeepsFloor(BooksOf(w), EffectOf(w, steps[j - 1]), pool, floor);
    }
  }

  /** The limits survive: as long as nobody redeems from the pool, each strategy
      stays within the cap in force at its own last execution, through any later
      deposits, executions and configuration changes; and the pool's idle share
      stays above the floor in force at the pool's last execution. */
  lemma LimitsPersist(w0: World, steps: seq<Step>, i: nat, j: nat)
    requires PossibleRun(w0, steps) && i < j <= |steps|
    requires steps[i].call.ToEngine? && ExecutedAt(w0, steps, i, steps[i].call.intent.vault)
    requires Accounting.AssetsAddUp(BooksOf(StateAt(w0, steps, i)), steps[i].call.intent.Pool())
    requires forall k :: i < k < j ==> !RedeemsFrom(w0, steps, k, steps[i].call.intent.Pool())
    ensures steps[i].call.intent.vault in StateAt(w0, steps, i).guard.configs
    ensures var intent, w := steps[i].call.intent, StateAt(w0, steps, i);
            && ((forall k :: i < k < j ==> !InvestsInto(w0, steps, k, intent.Pool(), intent.strategy)) ==>
                  WithinCap(BooksOf(StateAt(w0, steps, j)), intent.Pool(), intent.strategy, CapOf(w, intent)))
            && ((forall k :: i < k < j ==> !InvestsFrom(w0, steps, k, intent.Pool())) ==>
                  AboveFloor(BooksOf(StateAt(w0, steps, j)), intent.Pool(), FloorOf(w, intent)))
  {
    hide Executed, EffectOf, StateAt, Next, PossibleRun, Possible, WithinCap, AboveFloor;
    var intent, w := steps[i].call.intent, StateAt(w0, steps, i);
    var pool := intent.Pool();
    ExecutionRespectsLimits(w, steps[i], intent.vault);
    RunStep(w0, steps, i);
    if forall k :: i < k < j ==> !InvestsInto(w0, steps, k, pool, intent.strategy) {
      CapHoldsBetween(w0, steps, i + 1, j, pool, intent.strategy, CapOf(w, intent));
    }
    if forall k :: i < k < j ==> !InvestsFrom(w0, steps, k, pool) {
      FloorHoldsBetween(w0, steps, i + 1, j, pool, FloorOf(w, intent));
    }
  }

  // ---- Bystanders over runs ----

  /** At any price and over any run: as long as a holder does not redeem from the
      pool, the holder's claim on it never falls. */
  lemma {:induction false} BystanderOverRuns(w0: World, steps: seq<Step>, n: nat, pool: PoolKey, holder: Principal)
    requires PossibleRun(w0, steps) && n <= |steps| && Accounting.SharesAddUp(BooksOf(w0), pool)
    requires forall k :: 0 <= k < n ==>
      !(RedeemsFrom(w0, steps, k, pool) && EffectOf(StateAt(w0, steps, k), steps[k]).holder == holder)
    ensures Accounting.SharesAddUp(BooksOf(StateAt(w0, steps, n)), pool)
    ensures Accounting.ClaimOf(BooksOf(w0), pool, holder) <= Accounting.ClaimOf(BooksOf(StateAt(w0, steps, n)), pool, holder)
  {
    hide Executed, EffectOf, StateAt, Next, PossibleRun, Possible;
    if n == 0 {
      RunStart(w0, steps);
    } else {
      var w := StateAt(w0, steps, n - 1);
      BystanderOverRuns(w0, steps, n - 1, pool, holder);
      RunStep(w0, steps, n - 1);
      assert RedeemsFrom(w0, steps, n - 1, pool) ==> EffectOf(w, steps[n - 1]).holder != holder;
      StepEffect(w, steps[n - 1]);
      Accounting.AppliedKeepsShares(BooksOf(w), EffectOf(w, steps[n - 1]), pool);
      Accounting.BystanderNeverDiluted(w, steps[n - 1], pool, holder);
    }
  }
}
