/** The part of the Clarity language every contract of the protocol relies on:
    responses, `asserts!`/`unwrap!`, checked 128-bit arithmetic, principals and
    the transaction context. */
module Clarity {

  const UINT_MAX: nat := 0xFFFF_FFFF_FFFF_FFFF_FFFF_FFFF_FFFF_FFFF
  const BPS: nat := 10000
  const MAINNET_CHAIN_ID: nat := 1

  /** The value returned for `(ok true)`. */
  const TRUE: nat := 1

  datatype Option<+T> = None | Some(value: T) {
    function GetOr(default: T): T {
      match this
      case Some(v) => v
      case None => default
    }
  }

  /** The answer of a contract call: `(ok v)`, `(err uN)`, or a runtime error
      (arithmetic out of range) that ends the transaction without a code. */
  datatype Response<+T> = Ok(value: T) | Err(code: nat) | Abort {
    predicate IsFailure() {
      !Ok?
    }

    function PropagateFailure<U>(): Response<U>
      requires !Ok?
    {
      if Err? then Err(code) else Abort
    }

    function Extract(): T
      requires Ok?
    {
      value
    }
  }

  /** The answer of `asserts!`. */
  datatype Check = Pass | Fail(code: nat) {
    predicate IsFailure() {
      Fail?
    }

    function PropagateFailure<U>(): Response<U>
      requires Fail?
    {
      Err(code)
    }
  }

  function Asserts(condition: bool, code: nat): Check {
    if condition then Pass else Fail(code)
  }

  function Unwrap<T>(o: Option<T>, code: nat): Response<T> {
    match o
    case Some(v) => Ok(v)
    case None => Err(code)
  }

  function Add(a: nat, b: nat): Response<nat> {
    if a + b <= UINT_MAX then Ok(a + b) else Abort
  }

  function Mul(a: nat, b: nat): Response<nat> {
    if a * b <= UINT_MAX then Ok(a * b) else Abort
  }

  /** `(/ a b)` */
  function Div(a: nat, b: nat): nat
    requires b > 0
  {
    a / b
  }

  /** `(default-to u0 (map-get? m k))` */
  function Lookup<K>(m: map<K, nat>, k: K): nat {
    if k in m then m[k] else 0
  }

  /** `(map-get? m k)` */
  function Find<K, V>(m: map<K, V>, k: K): Option<V> {
    if k in m then Some(m[k]) else None
  }

  /** What a contract's in-place function must have done when it returned `r`
      and left its state at `after`, given what the specification says. A call
      that fails promises nothing about the state: the runtime restores it. */
  ghost predicate Agrees<S>(spec: Response<(S, nat)>, r: Response<nat>, after: S) {
    match spec
    case Ok((s, v)) => r == Ok(v) && after == s
    case Err(c) => r == Err(c)
    case Abort => r == Abort
  }

  /** The answer of a call, without the state it leaves. */
  function AnswerOf<S>(r: Response<(S, nat)>): Response<nat> {
    match r
    case Ok((_, v)) => Ok(v)
    case Err(code) => Err(code)
    case Abort => Abort
  }

  // ---- Principals, assets and keys ----

  /** A wallet, some other contract, or one of the two contracts whose identity
      the protocol checks with `contract-caller`. */
  datatype Principal = Wallet(id: nat) | Deployed(id: nat) | VaultContract | EngineContract

  /** An asset name. `Other` is any string that is neither "STX" nor "SBTC". */
  datatype Asset = STX | SBTC | Other(text: string)

  predicate IsValidAsset(asset: Asset) {
    asset == STX || asset == SBTC
  }

  datatype PoolKey = PoolKey(vault: nat, asset: Asset)
  datatype ShareKey = ShareKey(pool: PoolKey, holder: Principal)
  datatype AllocationKey = AllocationKey(pool: PoolKey, strategy: nat)

  /** `tx-sender`, `contract-caller`, `stacks-block-height` and `chain-id`. */
  datatype Tx = Tx(sender: Principal, caller: Principal, height: nat, chainId: nat)

  /** A transaction that enters the protocol from outside. The vault is
      `tx-sender` only inside its own `as-contract` calls, and no code of the
      vault or the engine calls a guarded function other than the calls modelled
      here. */
  predicate FromOutside(tx: Tx) {
    && tx.sender != VaultContract && tx.sender != EngineContract
    && tx.caller != VaultContract && tx.caller != EngineContract
  }

  predicate IsMainnetChain(tx: Tx) {
    tx.chainId == MAINNET_CHAIN_ID
  }
}
