/** What one model call costs, in exact integers.

    Rates count 1e-10 USD per million tokens, so a cost counts 1e-16 USD; multipliers
    count 1e-6; credits count micro-credits (1e-6). */
module Pricing {

  datatype TokenUsage = TokenUsage(input: nat, output: nat, cached: nat, cacheWrite: nat) {
    /** Cache reads and writes are part of the input. */
    predicate Consistent() { cached + cacheWrite <= input }

    function Plus(other: TokenUsage): TokenUsage {
      TokenUsage(input + other.input, output + other.output, cached + other.cached, cacheWrite + other.cacheWrite)
    }
  }

  type Reported = u: TokenUsage | u.Consistent() witness TokenUsage(0, 0, 0, 0)

  datatype Rates = Rates(input: nat, output: nat, cached: nat, cacheWrite: nat, multiplier: nat)

  /** A catalog row. */
  datatype Model = Model(rates: Rates, maxInput: nat, maxOutput: nat, enabled: bool)

  /** The configured credits per USD: `digits` with `places` decimals. */
  datatype Denomination = Denomination(digits: nat, places: nat)

  /** The prices a call is bound to from its reservation on. */
  datatype Snapshot = Snapshot(rates: Rates, credits: Denomination)

  function PricingSnapshot(model: Model, credits: Denomination): Snapshot {
    Snapshot(model.rates, credits)
  }

  function Pow10(n: nat): (p: nat)
    ensures 0 < p
  {
    if n == 0 then 1 else 10 * Pow10(n - 1)
  }

  function Cost(u: TokenUsage, r: Rates): int {
    (u.input - u.cached - u.cacheWrite) * r.input + u.cached * r.cached
    + u.cacheWrite * r.cacheWrite + u.output * r.output
  }

  /** Rounded up to the next micro-credit. */
  function CeilDiv(a: int, d: nat): int
    requires 0 < d
  {
    -((-a) / d)
  }

  /** The cost in credits, in units of one over `Unit(s)` micro-credits. */
  function Scaled(u: TokenUsage, s: Snapshot): int {
    Cost(u, s.rates) * (s.rates.multiplier * s.credits.digits)
  }

  function Unit(s: Snapshot): (d: nat)
    ensures 0 < d
  {
    10_000_000_000_000_000 * Pow10(s.credits.places)
  }

  function Price(u: TokenUsage, s: Snapshot): int {
    CeilDiv(Scaled(u, s), Unit(s))
  }

  function Max(a: nat, b: nat): nat { if a < b then b else a }

  /** The credits a reservation sets aside: the full limits at the dearest input rate. */
  function Hold(model: Model, credits: Denomination): int {
    var r := model.rates;
    var ceiling := r.(input := Max(r.input, Max(r.cached, r.cacheWrite)));
    Price(TokenUsage(model.maxInput, model.maxOutput, 0, 0), Snapshot(ceiling, credits))
  }

  predicate WithinLimits(u: TokenUsage, model: Model) {
    u.input <= model.maxInput && u.output <= model.maxOutput
  }

  lemma CeilDivBounds(a: int, d: nat)
    requires 0 < d
    ensures d * (CeilDiv(a, d) - 1) < a <= d * CeilDiv(a, d)
  {
  }

  lemma Between(d: nat, x: int, y: int)
    requires 0 < d && d * x < d * y
    ensures x < y
  {
    if y <= x { MulMonotone(y, x, d); }
  }

  lemma CeilDivMonotone(a: int, b: int, d: nat)
    requires 0 < d && a <= b
    ensures CeilDiv(a, d) <= CeilDiv(b, d)
  {
    CeilDivBounds(a, d);
    CeilDivBounds(b, d);
    Between(d, CeilDiv(a, d) - 1, CeilDiv(b, d));
  }

  lemma CeilDivSum(a: int, b: int, d: nat)
    requires 0 < d
    ensures CeilDiv(a + b, d) <= CeilDiv(a, d) + CeilDiv(b, d) <= CeilDiv(a + b, d) + 1
  {
    var p, q, r := CeilDiv(a, d), CeilDiv(b, d), CeilDiv(a + b, d);
    CeilDivBounds(a, d);
    CeilDivBounds(b, d);
    CeilDivBounds(a + b, d);
    assert d * (p - 1) == d * p - d && d * (q - 1) == d * q - d && d * (r - 1) == d * r - d;
    assert d * (p + q) == d * p + d * q && d * (p + q - 2) == d * p + d * q - 2 * d;
    Between(d, r - 1, p + q);
    Between(d, p + q - 2, r);
  }

  lemma MulMonotone(a: int, b: int, k: nat)
    requires a <= b
    ensures a * k <= b * k
  {
  }

  lemma MulNonNegative(a: nat, b: nat)
    ensures 0 <= a * b
  {
  }

  lemma Distribute(a: int, b: int, c: int, k: int)
    ensures (a + b + c) * k == a * k + b * k + c * k
  {
  }

  /** What one more batch of tokens of each kind adds to the cost; no tokens cost nothing. Cached
      and cache-write tokens are part of the input, so each replaces one at the input rate. */
  lemma EveryKindOfTokenIsPriced(u: TokenUsage, n: nat, r: Rates)
    ensures Cost(u.(input := u.input + n), r) == Cost(u, r) + n * r.input
    ensures Cost(u.(output := u.output + n), r) == Cost(u, r) + n * r.output
    ensures Cost(u.(cached := u.cached + n), r) == Cost(u, r) + n * (r.cached - r.input)
    ensures Cost(u.(cacheWrite := u.cacheWrite + n), r) == Cost(u, r) + n * (r.cacheWrite - r.input)
    ensures Cost(TokenUsage(0, 0, 0, 0), r) == 0
  {
    var plain := u.input - u.cached - u.cacheWrite;
    Distribute(plain, n, 0, r.input);
    Distribute(plain, -(n as int), 0, r.input);
    Distribute(u.output, n, 0, r.output);
    Distribute(u.cached, n, 0, r.cached);
    Distribute(u.cacheWrite, n, 0, r.cacheWrite);
    assert n * (r.cached - r.input) == n * r.cached - n * r.input;
    assert n * (r.cacheWrite - r.input) == n * r.cacheWrite - n * r.input;
  }

  /** The exchange rate: a million input tokens at `dollars` USD a million, times `multiplier`,
      at `credits` credits per USD, cost exactly that many credits. */
  lemma AMillionTokensAtTheirPrice(dollars: nat, multiplier: nat, credits: nat, r: Rates)
    requires r.input == dollars * 10_000_000_000 && r.multiplier == multiplier * 1_000_000
    ensures Price(TokenUsage(1_000_000, 0, 0, 0), Snapshot(r, Denomination(credits, 0)))
            == dollars * multiplier * credits * 1_000_000
  {
    hide CeilDiv;
    var u, s := TokenUsage(1_000_000, 0, 0, 0), Snapshot(r, Denomination(credits, 0));
    var micros := dollars * multiplier * credits * 1_000_000;
    assert Cost(u, r) == dollars * 10_000_000_000_000_000;
    Regroup(dollars, multiplier, credits);
    assert Scaled(u, s) == Unit(s) * micros;
    CoversExactly(Scaled(u, s), Unit(s), micros);
    CoversExactly(Scaled(u, s), Unit(s), micros - 1);
  }

  lemma Regroup(d: nat, m: nat, c: nat)
    ensures d * 10_000_000_000_000_000 * (m * 1_000_000 * c) == 10_000_000_000_000_000 * (d * m * c * 1_000_000)
  {
  }

  /** Writing a zero after the last decimal of the credits per USD changes no price. */
  lemma TrailingZeroIsFree(u: Reported, r: Rates, digits: nat, places: nat)
    ensures Price(u, Snapshot(r, Denomination(10 * digits, places + 1)))
            == Price(u, Snapshot(r, Denomination(digits, places)))
  {
    hide CeilDiv, Cost;
    var s, s' := Snapshot(r, Denomination(digits, places)), Snapshot(r, Denomination(10 * digits, places + 1));
    assert Unit(s') == 10 * Unit(s);
    assert r.multiplier * (10 * digits) == 10 * (r.multiplier * digits);
    assert Cost(u, r) * (10 * (r.multiplier * digits)) == 10 * (Cost(u, r) * (r.multiplier * digits));
    CoversExactly(Scaled(u, s), Unit(s), Price(u, s));
    CoversExactly(Scaled(u, s), Unit(s), Price(u, s) - 1);
    TenTimes(Unit(s), Price(u, s));
    CoversExactly(Scaled(u, s'), Unit(s'), Price(u, s));
    CoversExactly(Scaled(u, s'), Unit(s'), Price(u, s) - 1);
  }

  lemma TenTimes(d: nat, p: int)
    ensures (10 * d) * p == 10 * (d * p) && (10 * d) * (p - 1) == 10 * (d * (p - 1))
  {
  }

  /** At most the full input at the dearest rate plus the full output. */
  lemma CostBelowCeiling(u: Reported, r: Rates, top: nat, maxInput: nat, maxOutput: nat)
    requires r.input <= top && r.cached <= top && r.cacheWrite <= top
    requires u.input <= maxInput && u.output <= maxOutput
    ensures 0 <= Cost(u, r) <= maxInput * top + maxOutput * r.output
  {
    var plain := u.input - u.cached - u.cacheWrite;
    MulMonotone(r.input, top, plain);
    MulMonotone(r.cached, top, u.cached);
    MulMonotone(r.cacheWrite, top, u.cacheWrite);
    Distribute(plain, u.cached, u.cacheWrite, top);
    MulMonotone(u.input, maxInput, top);
    MulMonotone(u.output, maxOutput, r.output);
    MulNonNegative(plain, r.input);
    MulNonNegative(u.cached, r.cached);
    MulNonNegative(u.cacheWrite, r.cacheWrite);
    MulNonNegative(u.output, r.output);
  }

  lemma PriceMonotone(u: TokenUsage, s: Snapshot, u': TokenUsage, s': Snapshot)
    requires s.rates.multiplier == s'.rates.multiplier && s.credits == s'.credits
    requires Cost(u, s.rates) <= Cost(u', s'.rates)
    ensures Price(u, s) <= Price(u', s')
  {
    var k := s.rates.multiplier * s.credits.digits;
    MulMonotone(Cost(u, s.rates), Cost(u', s'.rates), k);
    CeilDivMonotone(Scaled(u, s), Scaled(u', s'), Unit(s));
  }

  /** All the input at its dearest rate, all the output. */
  function WorstUsage(model: Model): TokenUsage {
    var r, n := model.rates, model.maxInput;
    if r.cached <= r.input && r.cacheWrite <= r.input then TokenUsage(n, model.maxOutput, 0, 0)
    else if r.cacheWrite <= r.cached then TokenUsage(n, model.maxOutput, n, 0)
    else TokenUsage(n, model.maxOutput, 0, n)
  }

  /** The hold is the dearest price any usage within the limits can have: none is above it
      and one reaches it. */
  lemma HoldIsTheMaximum(u: Reported, model: Model, credits: Denomination)
    requires WithinLimits(u, model)
    ensures 0 <= Price(u, PricingSnapshot(model, credits)) <= Hold(model, credits)
    ensures var w := WorstUsage(model);
            && w.Consistent() && WithinLimits(w, model)
            && Price(w, PricingSnapshot(model, credits)) == Hold(model, credits)
  {
    var r, s := model.rates, PricingSnapshot(model, credits);
    var ceiling := r.(input := Max(r.input, Max(r.cached, r.cacheWrite)));
    var full := TokenUsage(model.maxInput, model.maxOutput, 0, 0);
    CostBelowCeiling(u, r, ceiling.input, model.maxInput, model.maxOutput);
    PriceMonotone(u, s, full, Snapshot(ceiling, credits));
    var zero := TokenUsage(0, 0, 0, 0);
    assert Cost(zero, r) == 0;
    PriceMonotone(zero, s, u, s);
    assert Cost(WorstUsage(model), r) == Cost(full, ceiling);
  }

  /** What the catalog import accepts of a model. */
  predicate Importable(model: Model) {
    var r := model.rates;
    && 0 < r.input && 0 < r.output && 1_000_000 <= r.multiplier <= 100_000_000
    && 1024 <= model.maxInput <= 1_000_000 && 128 <= model.maxOutput <= 100_000
  }

  /** The price is the least whole number of micro-credits that pays for the cost; so a cost
      above nothing, however small, is charged. */
  lemma PriceIsTheLeastThatPays(u: Reported, s: Snapshot, p: int)
    ensures Price(u, s) <= p <==> Scaled(u, s) <= Unit(s) * p
    ensures 0 < Price(u, s) <==> 0 < Scaled(u, s)
  {
    hide Scaled, CeilDiv, Unit;
    CoversExactly(Scaled(u, s), Unit(s), p);
    CoversExactly(Scaled(u, s), Unit(s), 0);
  }

  lemma CoversExactly(a: int, d: nat, p: int)
    requires 0 < d
    ensures CeilDiv(a, d) <= p <==> a <= d * p
  {
    CeilDivBounds(a, d);
    if CeilDiv(a, d) <= p { MulMonotone(CeilDiv(a, d), p, d); } else { MulMonotone(p, CeilDiv(a, d) - 1, d); }
  }

  /** Neither cache rate is above the input rate. */
  predicate CacheIsCheaper(r: Rates) {
    r.cached <= r.input && r.cacheWrite <= r.input
  }

  /** Every usage within the limits, consistent or not, is priced within the hold. */
  ghost predicate HoldBoundsAnyUsage(model: Model, credits: Denomination) {
    forall u: TokenUsage :: WithinLimits(u, model) ==> Price(u, PricingSnapshot(model, credits)) <= Hold(model, credits)
  }

  /** Without `Consistent` the hold bounds nothing where a cache rate is above the input rate:
      enough cached tokens beyond the input cost more than any hold. Elsewhere it still does. */
  lemma HoldNeedsConsistencyExactlyWhenCacheIsDearer(model: Model, credits: Denomination)
    requires 0 < model.rates.multiplier && 0 < credits.digits
    ensures HoldBoundsAnyUsage(model, credits) <==> CacheIsCheaper(model.rates)
  {
    var r, s := model.rates, PricingSnapshot(model, credits);
    if CacheIsCheaper(r) {
      forall u: TokenUsage | WithinLimits(u, model) ensures Price(u, s) <= Hold(model, credits) {
        CheapCacheBelowCeiling(u, r, model.maxInput, model.maxOutput);
        PriceMonotone(u, s, TokenUsage(model.maxInput, model.maxOutput, 0, 0), s);
      }
    } else {
      var u := EscapingUsage(model, credits);
      assert WithinLimits(u, model) && Price(u, s) > Hold(model, credits);
    }
  }

  lemma CheapCacheBelowCeiling(u: TokenUsage, r: Rates, maxInput: nat, maxOutput: nat)
    requires CacheIsCheaper(r) && u.input <= maxInput && u.output <= maxOutput
    ensures Cost(u, r) <= maxInput * r.input + maxOutput * r.output
  {
    MulMonotone(r.cached, r.input, u.cached);
    MulMonotone(r.cacheWrite, r.input, u.cacheWrite);
    var cached: int, cacheWrite: int := u.cached, u.cacheWrite;
    Distribute(u.input, -cached, -cacheWrite, r.input);
    MulMonotone(u.input, maxInput, r.input);
    MulMonotone(u.output, maxOutput, r.output);
  }

  /** A usage of cached tokens alone, enough of them to cost more than the hold. */
  lemma EscapingUsage(model: Model, credits: Denomination) returns (u: TokenUsage)
    requires 0 < model.rates.multiplier && 0 < credits.digits && !CacheIsCheaper(model.rates)
    ensures WithinLimits(u, model) && Hold(model, credits) < Price(u, PricingSnapshot(model, credits))
  {
    hide CeilDiv, Pow10, Hold, Cost;
    var r := model.rates;
    var k, unit, hold := r.multiplier * credits.digits, Unit(Snapshot(r, credits)), Hold(model, credits);
    MulMonotone(1, r.multiplier, credits.digits);
    var n: nat := if 0 <= unit * hold then unit * hold + 1 else 1;
    u := if r.input < r.cached then TokenUsage(0, 0, n, 0) else TokenUsage(0, 0, 0, n);
    CachedCost(n, r);
    ProductExceeds(n, (if r.input < r.cached then r.cached else r.cacheWrite) - r.input, k);
    CoversExactly(Cost(u, r) * k, unit, hold);
  }

  lemma CachedCost(n: nat, r: Rates)
    ensures Cost(TokenUsage(0, 0, n, 0), r) == n * (r.cached - r.input)
    ensures Cost(TokenUsage(0, 0, 0, n), r) == n * (r.cacheWrite - r.input)
  {
  }

  lemma ProductExceeds(n: nat, gap: int, k: int)
    requires 0 < gap && 0 < k
    ensures n <= n * gap * k
  {
    MulMonotone(1, gap, n);
    MulMonotone(1, k, n * gap);
  }

  /** For one, at the rates the documentation gives, where writing the cache is dearest. */
  lemma InconsistentUsageEscapesTheHold()
    ensures var model := Model(Rates(20_000_000_000, 80_000_000_000, 5_000_000_000, 25_000_000_000, 2_000_000), 1024,
                               128, true);
            var u := TokenUsage(0, 0, 0, 10_000);
            && Importable(model) && WithinLimits(u, model) && !u.Consistent()
            && Price(u, PricingSnapshot(model, Denomination(1000, 0))) > Hold(model, Denomination(1000, 0))
  {
  }

  function TotalUsage(us: seq<TokenUsage>): TokenUsage {
    if us == [] then TokenUsage(0, 0, 0, 0) else TotalUsage(us[..|us| - 1]).Plus(us[|us| - 1])
  }

  function TotalPrice(us: seq<TokenUsage>, s: Snapshot): int {
    if us == [] then 0 else TotalPrice(us[..|us| - 1], s) + Price(us[|us| - 1], s)
  }

  lemma CostAdds(u: TokenUsage, v: TokenUsage, r: Rates)
    ensures Cost(u.Plus(v), r) == Cost(u, r) + Cost(v, r)
  {
    var p, q := u.input - u.cached - u.cacheWrite, v.input - v.cached - v.cacheWrite;
    assert (p + q) * r.input == p * r.input + q * r.input;
    assert (u.cached + v.cached) * r.cached == u.cached * r.cached + v.cached * r.cached;
    assert (u.cacheWrite + v.cacheWrite) * r.cacheWrite == u.cacheWrite * r.cacheWrite + v.cacheWrite * r.cacheWrite;
    assert (u.output + v.output) * r.output == u.output * r.output + v.output * r.output;
  }

  lemma ScaledSum(a: int, b: int, k: int, d: nat)
    requires 0 < d
    ensures CeilDiv((a + b) * k, d) <= CeilDiv(a * k, d) + CeilDiv(b * k, d) <= CeilDiv((a + b) * k, d) + 1
  {
    Distribute(a, b, 0, k);
    CeilDivSum(a * k, b * k, d);
  }

  lemma PriceAdds(u: TokenUsage, v: TokenUsage, s: Snapshot)
    ensures Price(u.Plus(v), s) <= Price(u, s) + Price(v, s) <= Price(u.Plus(v), s) + 1
  {
    hide Cost, CeilDiv, Pow10;
    CostAdds(u, v, s.rates);
    ScaledSum(Cost(u, s.rates), Cost(v, s.rates), s.rates.multiplier * s.credits.digits, Unit(s));
  }

  /** Rounding never favours the merchant and never costs a full quantum a call: n calls cost
      between 0 and n - 1 micro-credits more than one call for their summed usage. */
  lemma {:induction false} SplitCallsRoundUp(us: seq<TokenUsage>, s: Snapshot)
    requires us != []
    ensures 0 <= TotalPrice(us, s) - Price(TotalUsage(us), s) <= |us| - 1
  {
    hide Price;
    var init, last := us[..|us| - 1], us[|us| - 1];
    if init == [] {
      assert TotalUsage(us) == last;
    } else {
      SplitCallsRoundUp(init, s);
      PriceAdds(TotalUsage(init), last, s);
    }
  }
}
