/** The real token holdings of principals: STX, and the balances of SIP-010 token
    contracts. The protocol's books live elsewhere; this is what the books must
    be covered by. */
module Ledger {
  import opened Clarity

  datatype TokenKey = TokenKey(token: Principal, holder: Principal)

  datatype State = State(stx: map<Principal, nat>, tokens: map<TokenKey, nat>) {
    function StxOf(who: Principal): nat {
      Lookup(stx, who)
    }

    function TokensOf(token: Principal, who: Principal): nat {
      Lookup(tokens, TokenKey(token, who))
    }
  }

  /** `stx-transfer?`: None for its errors (a zero amount, a transfer to oneself,
      too little STX). */
  function StxMoved(s: State, amount: nat, from: Principal, to: Principal): (r: Option<State>)
    ensures r.Some? <==> amount > 0 && from != to && amount <= s.StxOf(from)
    ensures r.Some? ==>
      && r.value.tokens == s.tokens
      && r.value.StxOf(from) == s.StxOf(from) - amount
      && r.value.StxOf(to) == s.StxOf(to) + amount
      && forall who :: who != from && who != to ==> r.value.StxOf(who) == s.StxOf(who)
  {
    if amount == 0 || from == to || s.StxOf(from) < amount then None
    else Some(s.(stx := s.stx[from := s.StxOf(from) - amount][to := s.StxOf(to) + amount]))
  }

  /** `transfer` of a SIP-010 token: moves exactly `amount` or fails, and may also
      refuse for reasons of its own (`accepts`). */
  function TokenMoved(s: State, token: Principal, accepts: bool, amount: nat, from: Principal, to: Principal): (r: Option<State>)
    ensures r.Some? <==> accepts && amount > 0 && from != to && amount <= s.TokensOf(token, from)
    ensures r.Some? ==>
      && r.value.stx == s.stx
      && r.value.TokensOf(token, from) == s.TokensOf(token, from) - amount
      && r.value.TokensOf(token, to) == s.TokensOf(token, to) + amount
      && forall t, who :: (t != token || (who != from && who != to)) ==> r.value.TokensOf(t, who) == s.TokensOf(t, who)
  {
    if !accepts || amount == 0 || from == to || s.TokensOf(token, from) < amount then None
    else
      var source := TokenKey(token, from);
      var target := TokenKey(token, to);
      Some(s.(tokens := s.tokens[source := s.TokensOf(token, from) - amount][target := s.TokensOf(token, to) + amount]))
  }

  /** The vault contract holds no less of anything in `after` than in `before`.
      Nobody but the vault can move what the vault holds, so this is what any
      transfer between others, or to the vault, looks like. */
  ghost predicate VaultKeepsAll(before: State, after: State) {
    && before.StxOf(VaultContract) <= after.StxOf(VaultContract)
    && forall t :: before.TokensOf(t, VaultContract) <= after.TokensOf(t, VaultContract)
  }

  /** The token ledgers as the contracts see them: transfers change them in place. */
  class Contract {
    var stx: map<Principal, nat>
    var tokens: map<TokenKey, nat>

    ghost function View(): State
      reads this
    {
      State(stx, tokens)
    }

    constructor (s: State)
      ensures View() == s
    {
      stx, tokens := s.stx, s.tokens;
    }

    method TransferStx(amount: nat, from: Principal, to: Principal) returns (ok: bool)
      modifies this
      ensures ok == StxMoved(old(View()), amount, from, to).Some?
      ensures View() == StxMoved(old(View()), amount, from, to).GetOr(old(View()))
    {
      ok := amount != 0 && from != to && amount <= Lookup(stx, from);
      if ok {
        stx := stx[from := Lookup(stx, from) - amount];
        stx := stx[to := Lookup(stx, to) + amount];
      }
    }

    method TransferToken(token: Principal, accepts: bool, amount: nat, from: Principal, to: Principal) returns (ok: bool)
      modifies this
      ensures ok == TokenMoved(old(View()), token, accepts, amount, from, to).Some?
      ensures View() == TokenMoved(old(View()), token, accepts, amount, from, to).GetOr(old(View()))
    {
      var source := TokenKey(token, from);
      var target := TokenKey(token, to);
      ok := accepts && amount != 0 && from != to && amount <= Lookup(tokens, source);
      if ok {
        tokens := tokens[source := Lookup(tokens, source) - amount];
        tokens := tokens[target := Lookup(tokens, target) + amount];
      }
    }

    /** Sets the ledgers to `s`: the effect of foreign code, or the runtime's undo. */
    method Assign(s: State)
      modifies this
      ensures View() == s
    {
      stx, tokens := s.stx, s.tokens;
    }
  }
}
