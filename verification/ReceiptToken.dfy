/** contracts/receipt-token-v7.clar: the share ledger per (vault, asset, holder). */
module ReceiptToken {
  import opened Clarity

  datatype State = State(balances: map<ShareKey, nat>, supplies: map<PoolKey, nat>) {
    function BalanceOf(pool: PoolKey, holder: Principal): nat {
      Lookup(balances, ShareKey(pool, holder))
    }

    function SupplyOf(pool: PoolKey): nat {
      Lookup(supplies, pool)
    }
  }

  function Minted(s: State, caller: Principal, pool: PoolKey, amount: nat, recipient: Principal): Response<(State, nat)> {
    if caller != VaultContract then Err(700)
    else
      :- Asserts(IsValidAsset(pool.asset), 701);
      :- Asserts(amount > 0, 702);
      var balance :- Add(s.BalanceOf(pool, recipient), amount);
      var supply :- Add(s.SupplyOf(pool), amount);
      Ok((State(s.balances[ShareKey(pool, recipient) := balance], s.supplies[pool := supply]), TRUE))
  }

  function Burned(s: State, caller: Principal, pool: PoolKey, amount: nat, holder: Principal): Response<(State, nat)> {
    if caller != VaultContract then Err(700)
    else
      :- Asserts(IsValidAsset(pool.asset), 701);
      :- Asserts(amount > 0, 702);
      :- Asserts(s.BalanceOf(pool, holder) >= amount, 703);
      if s.SupplyOf(pool) < amount then Abort
      else
        Ok((State(s.balances[ShareKey(pool, holder) := s.BalanceOf(pool, holder) - amount],
                  s.supplies[pool := s.SupplyOf(pool) - amount]), TRUE))
  }

  datatype Call =
    | Mint(pool: PoolKey, amount: nat, recipient: Principal)
    | Burn(pool: PoolKey, amount: nat, holder: Principal)
    | Transfer(pool: PoolKey, amount: nat, from: Principal, recipient: Principal)

  function Executed(s: State, tx: Tx, call: Call): Response<(State, nat)> {
    match call
    case Mint(pool, amount, recipient) => Minted(s, tx.caller, pool, amount, recipient)
    case Burn(pool, amount, holder) => Burned(s, tx.caller, pool, amount, holder)
    case Transfer(_, _, _, _) => Err(704)
  }

  class Contract {
    var balances: map<ShareKey, nat>
    var supplies: map<PoolKey, nat>

    ghost function View(): State
      reads this
    {
      State(balances, supplies)
    }

    constructor ()
      ensures View() == State(map[], map[])
    {
      balances, supplies := map[], map[];
    }

    method MintShares(caller: Principal, pool: PoolKey, amount: nat, recipient: Principal) returns (r: Response<nat>)
      modifies this
      ensures Agrees(Minted(old(View()), caller, pool, amount, recipient), r, View())
    {
      if caller != VaultContract { return Err(700); }
      if !IsValidAsset(pool.asset) { return Err(701); }
      if amount == 0 { return Err(702); }
      var balance :- Add(Lookup(balances, ShareKey(pool, recipient)), amount);
      balances := balances[ShareKey(pool, recipient) := balance];
      var supply :- Add(Lookup(supplies, pool), amount);
      supplies := supplies[pool := supply];
      return Ok(TRUE);
    }

    method BurnShares(caller: Principal, pool: PoolKey, amount: nat, holder: Principal) returns (r: Response<nat>)
      modifies this
      ensures Agrees(Burned(old(View()), caller, pool, amount, holder), r, View())
    {
      var balance := Lookup(balances, ShareKey(pool, holder));
      var supply := Lookup(supplies, pool);
      if caller != VaultContract { return Err(700); }
      if !IsValidAsset(pool.asset) { return Err(701); }
      if amount == 0 { return Err(702); }
      if balance < amount { return Err(703); }
      balances := balances[ShareKey(pool, holder) := balance - amount];
      if supply < amount { return Abort; }
      supplies := supplies[pool := supply - amount];
      return Ok(TRUE);
    }

    /** The runtime's undo. */
    method Assign(s: State)
      modifies this
      ensures View() == s
    {
      balances, supplies := s.balances, s.supplies;
    }
  }
}
