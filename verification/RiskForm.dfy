/** apps/web/src/components/vault/RiskFields.tsx: the risk form's parser against the
    contract's params-valid. */
module RiskForm {
  import opened Amounts
  import opened Clarity
  import opened Numbers
  import opened Text
  import RiskGuard

  datatype Form = Form(
    maxExposurePct: string, minIdlePct: string, maxSlippagePct: string,
    maxStxTx: string, maxSbtcTx: string, cooldown: string, autonomous: bool)

  /** The live ceilings, as JavaScript numbers. */
  datatype Limits = Limits(maxSlippageBps: nat, maxExposureBps: nat, minCooldown: nat, minLiquidityBps: nat)

  function LimitsOf(g: RiskGuard.State): Limits {
    Limits(NearestDouble(g.maxSlippageBps), NearestDouble(g.maxExposureBps),
           NearestDouble(g.minCooldown), NearestDouble(g.minLiquidityBps))
  }

  datatype Parsed = Parsed(params: RiskGuard.Params, autonomous: bool)

  datatype Field = MaxExposure | MinIdle | MaxSlippage | MaxStxTx | MaxSbtcTx | Cooldown

  /** Which message a field shows. */
  datatype Problem = NotAnAmount | BeyondProtocol | Above100Percent

  /** `/^\d+$/` on the trimmed text, then `Number`. */
  function ParseBlocks(text: string): Option<nat> {
    var s := Trim(text);
    if s != "" && AllDigits(s) then Some(NearestDouble(Value(s))) else None
  }

  /** The numbers in the form, when every field holds one. */
  function Read(v: Form): Option<RiskGuard.Params> {
    var exposure, idle, slippage := PctToBps(v.maxExposurePct), PctToBps(v.minIdlePct), PctToBps(v.maxSlippagePct);
    var stx, sbtc, cooldown := ParseUnits(v.maxStxTx, 6), ParseUnits(v.maxSbtcTx, 8), ParseBlocks(v.cooldown);
    if exposure.Some? && idle.Some? && slippage.Some? && stx.Some? && sbtc.Some? && cooldown.Some?
    then Some(RiskGuard.Params(exposure.value, stx.value, sbtc.value, slippage.value, idle.value, cooldown.value))
    else None
  }

  /** The guard a set of limits describes, as far as params-valid looks. */
  function GuardWith(l: Limits): RiskGuard.State {
    RiskGuard.INITIAL.(maxSlippageBps := l.maxSlippageBps, maxExposureBps := l.maxExposureBps,
                       minCooldown := l.minCooldown, minLiquidityBps := l.minLiquidityBps)
  }

  /** parseRisk succeeds exactly when every field parses and params-valid holds of
      the parsed numbers under the given limits; it then returns those numbers. */
  function Accepted(v: Form, l: Limits): Option<Parsed> {
    match Read(v)
    case Some(p) => if RiskGuard.ParamsValid(GuardWith(l), p) then Some(Parsed(p, v.autonomous)) else None
    case None => None
  }

  /** What each field's own message is about. */
  predicate FieldOk(f: Field, v: Form, l: Limits) {
    match f
    case MaxExposure => var x := PctToBps(v.maxExposurePct); x.Some? && 0 < x.value <= l.maxExposureBps
    case MinIdle => var x := PctToBps(v.minIdlePct); x.Some? && l.minLiquidityBps <= x.value <= BPS
    case MaxSlippage => var x := PctToBps(v.maxSlippagePct); x.Some? && 0 < x.value <= l.maxSlippageBps
    case MaxStxTx => var x := ParseUnits(v.maxStxTx, 6); x.Some? && x.value > 0
    case MaxSbtcTx => var x := ParseUnits(v.maxSbtcTx, 8); x.Some? && x.value > 0
    case Cooldown => var x := ParseBlocks(v.cooldown); x.Some? && x.value >= l.minCooldown
  }

  lemma AcceptedFields(v: Form, l: Limits)
    ensures Accepted(v, l).Some? <==> forall f :: FieldOk(f, v, l)
  {
    hide PctToBps, ParseUnits, ParseBlocks;
    if forall f :: FieldOk(f, v, l) {
      assert FieldOk(MaxExposure, v, l) && FieldOk(MinIdle, v, l) && FieldOk(MaxSlippage, v, l);
      assert FieldOk(MaxStxTx, v, l) && FieldOk(MaxSbtcTx, v, l) && FieldOk(Cooldown, v, l);
    }
  }

  /** The message a wrong field shows: that it holds no usable number, that the number is
      beyond a protocol limit, or that it is above 100%. */
  function ProblemOf(f: Field, v: Form, l: Limits): Problem {
    match f
    case MaxExposure =>
      var x := PctToBps(v.maxExposurePct); if x.Some? && x.value > 0 then BeyondProtocol else NotAnAmount
    case MaxSlippage =>
      var x := PctToBps(v.maxSlippagePct); if x.Some? && x.value > 0 then BeyondProtocol else NotAnAmount
    case MinIdle =>
      var x := PctToBps(v.minIdlePct);
      if x.None? then NotAnAmount else if x.value < l.minLiquidityBps then BeyondProtocol else Above100Percent
    case MaxStxTx => NotAnAmount
    case MaxSbtcTx => NotAnAmount
    case Cooldown => if ParseBlocks(v.cooldown).Some? then BeyondProtocol else NotAnAmount
  }

  /** The fields that are percentages of the pool. */
  predicate IsShare(f: Field) {
    f == MaxExposure || f == MinIdle || f == MaxSlippage
  }

  method CheckShares(v: Form, l: Limits) returns (errors: map<Field, Problem>)
    ensures forall f :: f in errors <==> IsShare(f) && !FieldOk(f, v, l)
    ensures forall f :: f in errors ==> errors[f] == ProblemOf(f, v, l)
  {
    hide PctToBps, ParseUnits, ParseBlocks;
    errors := map[];
    var exposure := PctToBps(v.maxExposurePct);
    var idle := PctToBps(v.minIdlePct);
    var slippage := PctToBps(v.maxSlippagePct);

    if exposure.None? || exposure.value == 0 { errors := errors[MaxExposure := NotAnAmount]; }
    else if exposure.value > l.maxExposureBps { errors := errors[MaxExposure := BeyondProtocol]; }

    if idle.None? { errors := errors[MinIdle := NotAnAmount]; }
    else if idle.value < l.minLiquidityBps { errors := errors[MinIdle := BeyondProtocol]; }
    else if idle.value > BPS { errors := errors[MinIdle := Above100Percent]; }

    if slippage.None? || slippage.value == 0 { errors := errors[MaxSlippage := NotAnAmount]; }
    else if slippage.value > l.maxSlippageBps { errors := errors[MaxSlippage := BeyondProtocol]; }
  }

  method CheckAmounts(v: Form, l: Limits, shareErrors: map<Field, Problem>) returns (errors: map<Field, Problem>)
    requires forall f :: f in shareErrors ==> IsShare(f) && shareErrors[f] == ProblemOf(f, v, l)
    ensures forall f :: f in errors <==> f in shareErrors || (!IsShare(f) && !FieldOk(f, v, l))
    ensures forall f :: f in errors ==> errors[f] == ProblemOf(f, v, l)
  {
    hide PctToBps, ParseUnits, ParseBlocks;
    errors := shareErrors;
    var stx := ParseUnits(v.maxStxTx, 6);
    var sbtc := ParseUnits(v.maxSbtcTx, 8);
    var cooldown := ParseBlocks(v.cooldown);

    if stx.None? || stx.value == 0 { errors := errors[MaxStxTx := NotAnAmount]; }
    if sbtc.None? || sbtc.value == 0 { errors := errors[MaxSbtcTx := NotAnAmount]; }

    if cooldown.None? { errors := errors[Cooldown := NotAnAmount]; }
    else if cooldown.value < l.minCooldown { errors := errors[Cooldown := BeyondProtocol]; }
  }

  /** parseRisk: fills `errors` field by field, and accepts when it stays empty. */
  method ParseRisk(v: Form, l: Limits) returns (r: Option<Parsed>, errors: map<Field, Problem>)
    ensures r == Accepted(v, l)
    ensures r.Some? <==> errors == map[]
    ensures forall f :: f in errors <==> !FieldOk(f, v, l)
    ensures forall f :: f in errors ==> errors[f] == ProblemOf(f, v, l)
  {
    hide PctToBps, ParseUnits, ParseBlocks, ProblemOf;
    errors := CheckShares(v, l);
    errors := CheckAmounts(v, l, errors);
    AcceptedFields(v, l);
    if errors != map[] {
      var f :| f in errors;
      return None, errors;
    }
    r := Some(Parsed(Read(v).value, v.autonomous));
  }

  // ---- Against the contract ----

  lemma BlocksAreDoubles(text: string)
    requires ParseBlocks(text).Some?
    ensures exists n :: ParseBlocks(text) == Some(NearestDouble(n))
  {
    assert ParseBlocks(text) == Some(NearestDouble(Value(Trim(text))));
  }

  lemma NearestIsDouble(n: nat)
    ensures IsDouble(NearestDouble(n))
  {
    hide Rounded, Spacing;
    if NearestDouble(n) <= n {
      RoundedDownIsDouble(n);
    } else if n < TWO53 {
      SmallIsExact(n);
    } else {
      RoundedUpIsDouble(n);
    }
  }

  /** A cooldown is accepted exactly if it is a non-empty string of digits between
      spaces, and is the double nearest to its value. */
  lemma BlocksAreExact(text: string, n: nat)
    ensures ParseBlocks(text) == Some(n) <==>
      exists before, digits, after ::
        && text == before + digits + after && AllSpaces(before) && AllSpaces(after)
        && digits != "" && AllDigits(digits) && n == NearestDouble(Value(digits))
  {
    hide NearestDouble, Value, Trim;
    if ParseBlocks(text) == Some(n) {
      var before, after := TrimIsExact(text);
      assert text == before + Trim(text) + after;
    }
    if before: string, digits: string, after: string :|
      && text == before + digits + after && AllSpaces(before) && AllSpaces(after)
      && digits != "" && AllDigits(digits) && n == NearestDouble(Value(digits))
    {
      TrimIsUnique(before, digits, after);
    }
  }

  /** The share limits of a guard are small, so they reach the form unchanged. */
  lemma ShareLimitsAreExact(g: RiskGuard.State)
    requires RiskGuard.Valid(g)
    ensures LimitsOf(g) == Limits(g.maxSlippageBps, g.maxExposureBps, NearestDouble(g.minCooldown), g.minLiquidityBps)
  {
    hide NearestDouble;
    SmallIsExact(g.maxSlippageBps);
    SmallIsExact(g.maxExposureBps);
    SmallIsExact(g.minLiquidityBps);
  }

  /** The form never refuses numbers the contract would take. */
  lemma NeverRefusesValid(g: RiskGuard.State, v: Form)
    requires RiskGuard.Valid(g) && Read(v).Some? && RiskGuard.ParamsValid(g, Read(v).value)
    ensures Accepted(v, LimitsOf(g)) == Some(Parsed(Read(v).value, v.autonomous))
  {
    ShareLimitsAreExact(g);
    BlocksAreDoubles(v.cooldown);
    var n :| ParseBlocks(v.cooldown) == Some(NearestDouble(n));
    NearestIsDouble(n);
    NoDoubleBetween(g.minCooldown, NearestDouble(n));
    hide NearestDouble, PctToBps, ParseUnits;
  }

  /** The numbers are Clarity uints, so that a call can carry them. */
  predicate Encodable(p: RiskGuard.Params) {
    && p.maxExposureBps <= UINT_MAX && p.maxStxTx <= UINT_MAX && p.maxSbtcTx <= UINT_MAX
    && p.maxSlippageBps <= UINT_MAX && p.minIdleBps <= UINT_MAX && p.cooldown <= UINT_MAX
  }

  /** A call with these numbers can be made, and params-valid accepts them. */
  predicate ContractTakes(g: RiskGuard.State, p: RiskGuard.Params) {
    Encodable(p) && RiskGuard.ParamsValid(g, p)
  }

  /** What the form does not check: of the numbers it lets through, the contract takes
      exactly those whose amounts and cooldown fit a uint and whose cooldown reaches
      the minimum itself, not only its double. */
  lemma AcceptedIsTakenIff(g: RiskGuard.State, v: Form)
    requires RiskGuard.Valid(g) && Accepted(v, LimitsOf(g)).Some?
    ensures var p := Accepted(v, LimitsOf(g)).value.params;
            ContractTakes(g, p) <==>
              p.maxStxTx <= UINT_MAX && p.maxSbtcTx <= UINT_MAX && p.cooldown <= UINT_MAX && g.minCooldown <= p.cooldown
  {
    hide NearestDouble, Read;
    ShareLimitsAreExact(g);
  }

  /** The corollary about the cooldown alone: params-valid holds of everything the form
      lets through exactly when the protocol's minimum cooldown does not shrink as a
      JavaScript number (it cannot below 2^53). */
  lemma SoundIffCooldownDoesNotShrink(g: RiskGuard.State)
    requires RiskGuard.Valid(g)
    ensures (forall v :: Accepted(v, LimitsOf(g)).Some? ==> RiskGuard.ParamsValid(g, Accepted(v, LimitsOf(g)).value.params))
       <==> NearestDouble(g.minCooldown) >= g.minCooldown
  {
    hide NearestDouble, PctToBps, ParseUnits, ParseBlocks;
    ShareLimitsAreExact(g);
    if NearestDouble(g.minCooldown) < g.minCooldown {
      var v := FormWith(g, 1, 1, g.minCooldown);
      assert Accepted(v, LimitsOf(g)).Some?;
    }
  }

  /** A form the user could fill in with these amounts and this cooldown, and the least
      shares the limits allow: it is accepted. */
  lemma FormWith(g: RiskGuard.State, stx: nat, sbtc: nat, cooldown: nat) returns (v: Form)
    requires RiskGuard.Valid(g) && stx > 0 && sbtc > 0 && NearestDouble(g.minCooldown) <= NearestDouble(cooldown)
    ensures Accepted(v, LimitsOf(g))
         == Some(Parsed(RiskGuard.Params(1, stx, sbtc, 1, g.minLiquidityBps, NearestDouble(cooldown)), false))
  {
    hide NearestDouble, PctToBps, ParseUnits, ParseBlocks, BpsToPct, FormatUnits, WithoutCommas, Digits, Read, Accepted;
    var p := RiskGuard.Params(1, stx, sbtc, 1, g.minLiquidityBps, NearestDouble(cooldown));
    v := Form(BpsToPct(1), BpsToPct(g.minLiquidityBps), BpsToPct(1),
              WithoutCommas(FormatUnits(stx, 6, 0)), WithoutCommas(FormatUnits(sbtc, 8, 0)), Digits(cooldown), false);
    ShareLimitsAreExact(g);
    PercentRoundTrip(1);
    PercentRoundTrip(g.minLiquidityBps);
    PrintThenParse(stx, 6, 0);
    PrintThenParse(sbtc, 8, 0);
    BlocksOfDigits(cooldown);
    ReadOfTexts(v, p);
    AcceptedParams(v, LimitsOf(g), p);
  }

  /** Whatever the limits are, the form lets through a STX limit, an sBTC limit and a
      cooldown of 2^128, which no call can carry. */
  lemma OversizedFormsAreAccepted(g: RiskGuard.State) returns (stx: Form, sbtc: Form, cooldown: Form)
    requires RiskGuard.Valid(g) && g.minCooldown <= UINT_MAX
    ensures Accepted(stx, LimitsOf(g)).Some? && Accepted(stx, LimitsOf(g)).value.params.maxStxTx == UINT_MAX + 1
    ensures Accepted(sbtc, LimitsOf(g)).Some? && Accepted(sbtc, LimitsOf(g)).value.params.maxSbtcTx == UINT_MAX + 1
    ensures Accepted(cooldown, LimitsOf(g)).Some? && Accepted(cooldown, LimitsOf(g)).value.params.cooldown == UINT_MAX + 1
    ensures !ContractTakes(g, Accepted(stx, LimitsOf(g)).value.params)
    ensures !ContractTakes(g, Accepted(sbtc, LimitsOf(g)).value.params)
    ensures !ContractTakes(g, Accepted(cooldown, LimitsOf(g)).value.params)
  {
    hide NearestDouble, IsDouble, Accepted;
    stx := FormWith(g, UINT_MAX + 1, 1, g.minCooldown);
    sbtc := FormWith(g, 1, UINT_MAX + 1, g.minCooldown);
    LargestUint();
    NoDoubleBetween(g.minCooldown, UINT_MAX + 1);
    cooldown := FormWith(g, 1, 1, UINT_MAX + 1);
  }

  /** An admin's minimum that shrinks: 2^53 + 1 blocks. The form then accepts 2^53
      blocks, a uint, which params-valid refuses. */
  lemma ShrinkingMinimum(tx: Tx) returns (g: RiskGuard.State, v: Form)
    ensures RiskGuard.LimitsSet(RiskGuard.INITIAL, tx, tx.sender, 1000, 5000, TWO53 + 1, 500) == Ok((g, TRUE))
    ensures RiskGuard.Valid(g) && NearestDouble(g.minCooldown) < g.minCooldown
    ensures Accepted(v, LimitsOf(g)).Some?
    ensures var p := Accepted(v, LimitsOf(g)).value.params;
            Encodable(p) && p.cooldown == TWO53 && !RiskGuard.ParamsValid(g, p)
  {
    hide NearestDouble, Accepted;
    g := RiskGuard.INITIAL.(minCooldown := TWO53 + 1);
    FirstInexact();
    v := FormWith(g, 1, 1, g.minCooldown);
  }

  lemma AcceptedParams(v: Form, l: Limits, p: RiskGuard.Params)
    requires Read(v) == Some(p)
    ensures Accepted(v, l) == if RiskGuard.ParamsValid(GuardWith(l), p) then Some(Parsed(p, v.autonomous)) else None
  {
    hide Read, RiskGuard.ParamsValid;
  }

  /** A form is read field by field. */
  lemma ReadOfTexts(v: Form, p: RiskGuard.Params)
    requires PctToBps(v.maxExposurePct) == Some(p.maxExposureBps)
    requires PctToBps(v.minIdlePct) == Some(p.minIdleBps)
    requires PctToBps(v.maxSlippagePct) == Some(p.maxSlippageBps)
    requires ParseUnits(v.maxStxTx, 6) == Some(p.maxStxTx)
    requires ParseUnits(v.maxSbtcTx, 8) == Some(p.maxSbtcTx)
    ensures Read(v) == match ParseBlocks(v.cooldown) case Some(c) => Some(p.(cooldown := c)) case None => None
  {
    hide PctToBps, ParseUnits, ParseBlocks;
  }

  lemma BlocksOfDigits(n: nat)
    ensures ParseBlocks(Digits(n)) == Some(NearestDouble(n))
  {
    hide NearestDouble;
    TrimNothing(Digits(n));
    ValueOfDigits(n);
  }

  // ---- Printing a configuration and reading it back ----

  /** A configuration as the web app holds it: shares and cooldown as numbers, amounts as bigints. */
  datatype Config = Config(params: RiskGuard.Params, autonomous: bool)

  const EXPONENT_FROM: nat := 1_000_000_000_000_000_000_000

  /** `String(n)` of a number that is a non-negative integer: below 10^21 the digits
      of an integer that denotes it (JavaScript picks the shortest; any one serves
      here), from there on exponent notation (the digits after the point, if any,
      are left out here). */
  ghost function NumberText(n: nat): string
    requires IsDouble(n)
  {
    if n < EXPONENT_FROM then Digits(Denoting(n)) else ExponentText(n)
  }

  /** Some integer that `Number` reads as `n`. */
  ghost function Denoting(n: nat): (m: nat)
    requires IsDouble(n)
    ensures NearestDouble(m) == n
  {
    DoubleDenotesItself(n);
    var m :| Reads(m, n);
    m
  }

  predicate Reads(m: nat, n: nat) {
    NearestDouble(m) == n
  }

  function ExponentText(n: nat): string {
    var k := |Digits(n)| - 1;
    Digits(Quotient(n, Pow10(k))) + "e+" + Digits(k)
  }

  lemma DoubleDenotesItself(n: nat)
    requires IsDouble(n)
    ensures NearestDouble(n) == n && Reads(n, n)
  {
    var u := Spacing(n);
    Rounded0(n, u);
    hide Rounded, Spacing;
  }

  lemma Rounded0(n: nat, u: nat)
    requires u > 0 && n % u == 0
    ensures Rounded(n, u) == n
  {
  }

  ghost function ValuesFromConfig(c: Config): Form
    requires IsDouble(c.params.cooldown)
  {
    Form(BpsToPct(c.params.maxExposureBps), BpsToPct(c.params.minIdleBps), BpsToPct(c.params.maxSlippageBps),
         WithoutCommas(FormatUnits(c.params.maxStxTx, 6, 0)), WithoutCommas(FormatUnits(c.params.maxSbtcTx, 8, 0)),
         NumberText(c.params.cooldown), c.autonomous)
  }

  lemma BlocksOfNumberText(n: nat)
    requires IsDouble(n)
    ensures ParseBlocks(NumberText(n)) == if n < EXPONENT_FROM then Some(n) else None
  {
    hide NearestDouble, IsDouble, Denoting, ExponentText;
    if n < EXPONENT_FROM {
      BlocksOfDigits(Denoting(n));
    } else {
      ExponentIsNotBlocks(n);
    }
  }

  lemma ExponentIsNotBlocks(n: nat)
    ensures ParseBlocks(ExponentText(n)) == None
  {
    hide NearestDouble, Pow10, Quotient, Digits, Value;
    var k := |Digits(n)| - 1;
    var head := Digits(Quotient(n, Pow10(k)));
    var text := ExponentText(n);
    assert text == head + "e+" + Digits(k);
    assert text[0] == head[0] && text[|text| - 1] == Digits(k)[|Digits(k)| - 1];
    TrimNothing(text);
    assert text[|head|] == 'e';
  }

  /** Showing a configuration that is within the limits in the form and reading the
      form gives the same configuration back, exactly when its cooldown prints
      without an exponent (below 10^21 blocks). */
  lemma ShowThenRead(c: Config, l: Limits)
    requires IsDouble(c.params.cooldown) && l.maxExposureBps <= BPS && l.maxSlippageBps <= BPS
    requires RiskGuard.ParamsValid(GuardWith(l), c.params)
    ensures Accepted(ValuesFromConfig(c), l) == Some(Parsed(c.params, c.autonomous)) <==> c.params.cooldown < EXPONENT_FROM
  {
    PercentRoundTrip(c.params.maxExposureBps);
    PercentRoundTrip(c.params.minIdleBps);
    PercentRoundTrip(c.params.maxSlippageBps);
    PrintThenParse(c.params.maxStxTx, 6, 0);
    PrintThenParse(c.params.maxSbtcTx, 8, 0);
    BlocksOfNumberText(c.params.cooldown);
    var v := ValuesFromConfig(c);
    ReadOfTexts(v, c.params);
    if c.params.cooldown < EXPONENT_FROM {
      AcceptedParams(v, l, c.params);
    }
    hide NearestDouble, PctToBps, ParseUnits, ParseBlocks, BpsToPct, FormatUnits, NumberText, WithoutCommas;
  }

  /** A configuration the contract takes at its initial limits and the form cannot show. */
  lemma LongCooldownIsNotReadBack()
    ensures var c := Config(RiskGuard.Params(1, 1, 1, 1, 500, EXPONENT_FROM), false);
            && ContractTakes(RiskGuard.INITIAL, c.params) && IsDouble(c.params.cooldown)
            && ParseBlocks(ValuesFromConfig(c).cooldown) == None
            && Accepted(ValuesFromConfig(c), LimitsOf(RiskGuard.INITIAL)) == None
  {
    TenTo21();
    hide IsDouble, NearestDouble;
    BlocksOfNumberText(EXPONENT_FROM);
    var c := Config(RiskGuard.Params(1, 1, 1, 1, 500, EXPONENT_FROM), false);
    NothingRead(ValuesFromConfig(c), LimitsOf(RiskGuard.INITIAL));
  }

  lemma NothingRead(v: Form, l: Limits)
    requires ParseBlocks(v.cooldown) == None
    ensures Accepted(v, l) == None
  {
    hide PctToBps, ParseUnits, ParseBlocks;
  }
}
