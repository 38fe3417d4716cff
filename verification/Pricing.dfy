/** Share pricing (contracts/sovereignty-vault-v7.clar, compute-deposit-shares and
    compute-redeem-assets) and its guarantees over arbitrary pools.

    The deployed contracts never move a pool's price away from one asset per
    share, so everything here is proved for pools at ANY price. */
module Pricing {
  import opened Clarity

  function ComputeDepositShares(supply: nat, total: nat, amount: nat, minInitial: nat): Response<nat> {
    if amount == 0 then Err(104)
    else if supply == 0 then
      :- Asserts(total == 0, 116);
      :- Asserts(amount >= minInitial, 114);
      Ok(amount)
    else
      :- Asserts(total > 0, 116);
      var product :- Mul(amount, supply);
      var shares := product / total;
      :- Asserts(shares > 0, 115);
      Ok(shares)
  }

  function ComputeRedeemAssets(shares: nat, supply: nat, total: nat): Response<nat> {
    if shares == 0 then Err(104)
    else
      :- Asserts(supply > 0, 117);
      :- Asserts(shares <= supply, 117);
      var product :- Mul(shares, total);
      var payout := product / supply;
      :- Asserts(payout > 0, 118);
      Ok(payout)
  }

  /** What `shares` of a pool entitle their holder to (the `claim` of get-position). */
  function Claim(shares: nat, supply: nat, total: nat): nat {
    if supply == 0 then 0 else shares * total / supply
  }

  // ---- Rounding ----

  lemma MulLe(a: int, b: int, c: nat)
    requires a <= b
    ensures a * c <= b * c
  {
  }

  lemma MulLt(a: int, b: int, c: nat)
    requires a < b && c > 0
    ensures a * c < b * c
  {
  }

  lemma CancelLe(a: int, b: int, c: nat)
    requires c > 0 && a * c <= b * c
    ensures a <= b
  {
    if b < a {
      MulLt(b, a, c);
    }
  }

  lemma CancelLt(a: int, b: int, c: nat)
    requires a * c < b * c
    ensures a < b
  {
    if b <= a {
      MulLe(b, a, c);
    }
  }

  lemma FloorBounds(x: nat, d: nat)
    requires d > 0
    ensures (x / d) * d <= x < (x / d) * d + d == (x / d + 1) * d
  {
  }

  lemma FloorIsLargest(x: nat, d: nat, q: int)
    requires d > 0 && q * d <= x
    ensures q <= x / d
  {
    FloorBounds(x, d);
    CancelLt(q, x / d + 1, d);
  }

  lemma FloorIsBelow(x: nat, d: nat, q: nat)
    requires d > 0 && x < q * d
    ensures x / d < q
  {
    FloorBounds(x, d);
    CancelLt(x / d, q, d);
  }

  /** A fraction that does not fall does not fall after flooring either. */
  lemma FloorMonotone(x: nat, d: nat, x': nat, d': nat)
    requires d > 0 && d' > 0
    requires x * d' <= x' * d
    ensures x / d <= x' / d'
  {
    var q := x / d;
    FloorBounds(x, d);
    MulLe(q * d, x, d');
    assert (q * d') * d == (q * d) * d';
    CancelLe(q * d', x', d);
    FloorIsLargest(x', d', q);
  }

  lemma ClaimMonotone(h: nat, s: nat, t: nat, s': nat, t': nat)
    requires s > 0 && s' > 0
    requires t * s' <= t' * s
    ensures Claim(h, s, t) <= Claim(h, s', t')
  {
    MulLe(t * s', t' * s, h);
    assert (h * t) * s' == (t * s') * h;
    assert (h * t') * s == (t' * s) * h;
    FloorMonotone(h * t, s, h * t', s');
  }

  // ---- One deposit, one redemption ----

  /** A deposit never lowers the price: floor(amount * supply / total) shares are
      worth at most what was paid. */
  lemma DepositKeepsPrice(supply: nat, total: nat, amount: nat, minInitial: nat)
    requires supply > 0 && ComputeDepositShares(supply, total, amount, minInitial).Ok?
    ensures var shares := ComputeDepositShares(supply, total, amount, minInitial).value;
            total * (supply + shares) <= (total + amount) * supply
  {
    var shares := ComputeDepositShares(supply, total, amount, minInitial).value;
    FloorBounds(amount * supply, total);
    assert total * (supply + shares) == total * supply + shares * total;
    assert (total + amount) * supply == total * supply + amount * supply;
  }

  /** A redemption never lowers the price of the shares that stay, never pays
      more than the pool holds, and empties the pool exactly when it burns the
      whole supply. */
  lemma RedeemKeepsPrice(shares: nat, supply: nat, total: nat)
    requires ComputeRedeemAssets(shares, supply, total).Ok?
    ensures var payout := ComputeRedeemAssets(shares, supply, total).value;
            && payout <= total
            && total * (supply - shares) <= (total - payout) * supply
            && (shares == supply <==> payout == total)
  {
    var payout := ComputeRedeemAssets(shares, supply, total).value;
    FloorBounds(shares * total, supply);
    MulLe(shares, supply, total);
    CancelLe(payout, total, supply);
    assert total * (supply - shares) == total * supply - shares * total;
    assert (total - payout) * supply == total * supply - payout * supply;
    if shares == supply {
      FloorIsLargest(shares * total, supply, total);
    } else {
      assert payout <= total;
      MulLt(shares, supply, total);
      CancelLt(payout, total, supply);
    }
  }

  /** Paying in and cashing out at once never gains and never costs more than
      one share's price plus one unit. The claim may be zero, in which case the
      redemption itself is refused. */
  lemma DepositThenRedeem(supply: nat, total: nat, amount: nat, minInitial: nat)
    requires supply > 0 && ComputeDepositShares(supply, total, amount, minInitial).Ok?
    ensures var shares := ComputeDepositShares(supply, total, amount, minInitial).value;
            var claim := Claim(shares, supply + shares, total + amount);
            && claim <= amount
            && (amount - claim) * (supply + shares) < total + supply + shares
  {
    var shares := ComputeDepositShares(supply, total, amount, minInitial).value;
    var s, t := supply + shares, total + amount;
    FloorBounds(amount * supply, total);
    RoundTripLoss(supply, total, amount, shares, Claim(shares, s, t));
  }

  lemma RoundTripLoss(supply: nat, total: nat, amount: nat, shares: nat, claim: nat)
    requires supply > 0
    requires shares * total <= amount * supply < shares * total + total
    requires claim == Claim(shares, supply + shares, total + amount)
    ensures claim <= amount
    ensures (amount - claim) * (supply + shares) < total + supply + shares
  {
    var s := supply + shares;
    var x := shares * (total + amount);
    FloorBounds(x, s);
    assert x == shares * total + shares * amount;
    assert amount * s == amount * supply + shares * amount;
    CancelLe(claim, amount, s);
    assert (amount - claim) * s == amount * s - claim * s;
  }

  // ---- Whole runs of one pool ----

  datatype Pool = Pool(supply: nat, total: nat)

  datatype Move = Deposit(amount: nat) | Redeem(shares: nat)

  /** The accounts of a group that makes every move of a run: what it paid in,
      what it was paid out, and the shares it holds. */
  datatype Group = Group(pool: Pool, held: nat, paid: nat, received: nat)

  /** One successful move by the group. */
  function Moved(g: Group, m: Move, minInitial: nat): Response<Group> {
    match m
    case Deposit(amount) =>
      var shares :- ComputeDepositShares(g.pool.supply, g.pool.total, amount, minInitial);
      Ok(Group(Pool(g.pool.supply + shares, g.pool.total + amount), g.held + shares, g.paid + amount, g.received))
    case Redeem(shares) =>
      var payout :- ComputeRedeemAssets(shares, g.pool.supply, g.pool.total);
      :- Asserts(shares <= g.held, 117);
      :- Asserts(payout <= g.pool.total, 105);
      Ok(Group(Pool(g.pool.supply - shares, g.pool.total - payout), g.held - shares, g.paid, g.received + payout))
  }

  /** A run of moves; moves that fail change nothing. */
  function AfterMoves(g: Group, moves: seq<Move>, minInitial: nat): Group
    decreases |moves|
  {
    if moves == [] then g
    else
      var r := Moved(g, moves[0], minInitial);
      AfterMoves(if r.Ok? then r.value else g, moves[1..], minInitial)
  }

  /** The group holds no more shares than there are, and the supply is positive
      before every move and at the end. */
  ghost predicate StaysOpen(g: Group, moves: seq<Move>, minInitial: nat)
    decreases |moves|
  {
    && g.held <= g.pool.supply
    && g.pool.supply > 0
    && (moves != [] ==>
          var r := Moved(g, moves[0], minInitial);
          StaysOpen(if r.Ok? then r.value else g, moves[1..], minInitial))
  }

  /** One move keeps the shares outside the group, never lowers the price, and
      moves the pool by exactly the group's cash. */
  lemma MovedKeepsPrice(g: Group, m: Move, minInitial: nat)
    requires g.held <= g.pool.supply && g.pool.supply > 0 && Moved(g, m, minInitial).Ok?
    ensures var g' := Moved(g, m, minInitial).value;
            && g'.held <= g'.pool.supply
            && g'.pool.supply - g'.held == g.pool.supply - g.held
            && g.pool.total * g'.pool.supply <= g'.pool.total * g.pool.supply
            && g'.pool.total - g'.paid + g'.received == g.pool.total - g.paid + g.received
  {
    match m
    case Deposit(amount) => DepositKeepsPrice(g.pool.supply, g.pool.total, amount, minInitial);
    case Redeem(shares) => RedeemKeepsPrice(shares, g.pool.supply, g.pool.total);
  }

  /** As long as one share is held by somebody outside the group, nothing the
      group does can bring the supply to zero. */
  lemma {:induction false} OutsidersKeepPoolOpen(g: Group, moves: seq<Move>, minInitial: nat)
    requires g.held < g.pool.supply
    ensures StaysOpen(g, moves, minInitial)
    decreases |moves|
  {
    if moves != [] {
      var r := Moved(g, moves[0], minInitial);
      if r.Ok? {
        MovedKeepsPrice(g, moves[0], minInitial);
      }
      OutsidersKeepPoolOpen(if r.Ok? then r.value else g, moves[1..], minInitial);
    }
  }

  lemma PriceTransitive(s0: nat, t0: nat, s1: nat, t1: nat, s2: nat, t2: nat)
    requires s1 > 0 && t0 * s1 <= t1 * s0 && t1 * s2 <= t2 * s1
    ensures t0 * s2 <= t2 * s0
  {
    MulLe(t0 * s1, t1 * s0, s2);
    MulLe(t1 * s2, t2 * s1, s0);
    assert (t0 * s2) * s1 == (t0 * s1) * s2;
    assert (t1 * s0) * s2 == (t1 * s2) * s0;
    assert (t2 * s0) * s1 == (t2 * s1) * s0;
    CancelLe(t0 * s2, t2 * s0, s1);
  }

  /** Over any run the price never falls, and cash is conserved. */
  lemma {:induction false} RunKeepsPrice(g: Group, moves: seq<Move>, minInitial: nat)
    requires StaysOpen(g, moves, minInitial)
    ensures var g' := AfterMoves(g, moves, minInitial);
            && g'.held <= g'.pool.supply && g'.pool.supply > 0
            && g'.pool.supply - g'.held == g.pool.supply - g.held
            && g.pool.total * g'.pool.supply <= g'.pool.total * g.pool.supply
            && g'.pool.total - g'.paid + g'.received == g.pool.total - g.paid + g.received
    decreases |moves|
  {
    if moves != [] {
      var r := Moved(g, moves[0], minInitial);
      var g1 := if r.Ok? then r.value else g;
      if r.Ok? {
        MovedKeepsPrice(g, moves[0], minInitial);
      }
      RunKeepsPrice(g1, moves[1..], minInitial);
      var g2 := AfterMoves(g1, moves[1..], minInitial);
      PriceTransitive(g.pool.supply, g.pool.total, g1.pool.supply, g1.pool.total, g2.pool.supply, g2.pool.total);
    }
  }

  /** No extraction: whatever a group does, in any order and at any price, its
      cash plus what its shares entitle it to never grows. */
  lemma NoExtraction(g: Group, moves: seq<Move>, minInitial: nat)
    requires StaysOpen(g, moves, minInitial)
    ensures var g' := AfterMoves(g, moves, minInitial);
            && g'.received - g'.paid + Claim(g'.held, g'.pool.supply, g'.pool.total)
               <= g.received - g.paid + Claim(g.held, g.pool.supply, g.pool.total)
            && (g'.held == g.held ==> g'.received - g.received <= g'.paid - g.paid)
  {
    var g' := AfterMoves(g, moves, minInitial);
    RunKeepsPrice(g, moves, minInitial);
    GroupValue(g.pool.supply, g.pool.total, g'.pool.supply, g'.pool.total, g.pool.supply - g.held);
    if g'.held == g.held {
      CancelLe(g.pool.total, g'.pool.total, g.pool.supply);
    }
  }

  /** The group's value is what the outsiders are not entitled to. Their
      entitlement, `out * price`, does not fall, so the group's value, cash
      included, does not rise. */
  lemma GroupValue(s0: nat, t0: nat, s1: nat, t1: nat, out: nat)
    requires out <= s0 && out <= s1 && s0 > 0 && s1 > 0
    requires t0 * s1 <= t1 * s0
    ensures t0 - t1 + Claim(s1 - out, s1, t1) <= Claim(s0 - out, s0, t0)
  {
    var claim := Claim(s1 - out, s1, t1);
    var value := t0 - t1 + claim;
    FloorBounds((s1 - out) * t1, s1);
    assert (s1 - out) * t1 == t1 * s1 - t1 * out;
    assert value * s1 == t0 * s1 - t1 * s1 + claim * s1;
    OutsidersKeep(value, s0, t0, s1, t1, out);
    FloorIsLargest((s0 - out) * t0, s0, value);
  }

  lemma OutsidersKeep(value: int, s0: nat, t0: nat, s1: nat, t1: nat, out: nat)
    requires s1 > 0
    requires value * s1 <= t0 * s1 - t1 * out
    requires t0 * s1 <= t1 * s0
    ensures value * s0 <= (s0 - out) * t0
  {
    MulLe(value * s1, t0 * s1 - t1 * out, s0);
    MulLe(t0 * s1, t1 * s0, out);
    calc {
      (t0 * s1 - t1 * out) * s0;
      (t0 * s1) * s0 - (t1 * s0) * out;
    <=
      (t0 * s1) * s0 - (t0 * s1) * out;
      ((s0 - out) * t0) * s1;
    }
    assert (value * s0) * s1 == (value * s1) * s0;
    CancelLe(value * s0, (s0 - out) * t0, s1);
  }

  /** Whoever holds every share can take out exactly what is there. */
  lemma RedeemEverything(g: Group, minInitial: nat)
    requires g.held == g.pool.supply > 0 && g.pool.total > 0
    requires g.pool.supply * g.pool.total <= UINT_MAX
    ensures Moved(g, Redeem(g.held), minInitial)
         == Ok(Group(Pool(0, 0), 0, g.paid, g.received + g.pool.total))
  {
    var s, t := g.pool.supply, g.pool.total;
    FloorIsLargest(s * t, s, t);
    FloorIsBelow(s * t, s, t + 1);
  }
}
