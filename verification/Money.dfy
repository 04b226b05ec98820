/** Transactions as the advisor reads them, and currency conversion. */
module Money {
  import opened Wrappers
  import opened Orders

  /** amount is None when the stored text does not parse. */
  datatype Tx = Tx(kind: string, category: Uuid, amount: Option<real>, currency: string, date: int, note: string,
                   internal: bool)

  type Rates = map<string, real>

  /** rateToUAH: UAH is 1 unless the rate list says otherwise. */
  function RateMap(listed: seq<(string, real)>): Rates {
    if listed == [] then map["UAH" := 1.0]
    else RateMap(listed[..|listed| - 1])[listed[|listed| - 1].0 := listed[|listed| - 1].1]
  }

  /** The loop that fills rateToUAH. */
  method BuildRates(listed: seq<(string, real)>) returns (rates: Rates)
    ensures rates == RateMap(listed)
  {
    rates := map["UAH" := 1.0];
    for i := 0 to |listed|
      invariant rates == RateMap(listed[..i])
    {
      assert listed[..i + 1][..i] == listed[..i];
      rates := rates[listed[i].0 := listed[i].1];
    }
    assert listed[..|listed|] == listed;
  }

  /** Go's map lookup: 0 for a missing key. */
  function RateOf(rates: Rates, currency: string): real { if currency in rates then rates[currency] else 0.0 }

  /** convert */
  function Convert(amount: real, from: string, to: string, rates: Rates): real {
    if from == to then amount
    else if RateOf(rates, from) == 0.0 || RateOf(rates, to) == 0.0 then amount
    else amount * RateOf(rates, from) / RateOf(rates, to)
  }

  /** A transaction's amount in the base currency; one that does not parse counts as 0. */
  function InBase(base: string, rates: Rates): Tx -> real {
    (tx: Tx) => Convert(if tx.amount.Some? then tx.amount.value else 0.0, tx.currency, base, rates)
  }

  predicate Known(rates: Rates, currency: string) { RateOf(rates, currency) > 0.0 }

  predicate AllKnown(rates: Rates, txs: seq<Tx>) { forall tx :: tx in txs ==> Known(rates, tx.currency) }

  /** How one base currency's figures become another's. */
  function Factor(rates: Rates, base: string, base': string): real
    requires Known(rates, base')
  {
    RateOf(rates, base) / RateOf(rates, base')
  }

  lemma FactorPositive(rates: Rates, base: string, base': string)
    requires Known(rates, base) && Known(rates, base')
    ensures Factor(rates, base, base') > 0.0
  {}

  lemma Divide(a: real, b: real, c: real)
    requires b != 0.0 && c != 0.0
    ensures a / c == a / b * (b / c)
  {
    assert a == a / b * b;
  }

  lemma Associate(a: real, b: real, c: real)
    requires c != 0.0
    ensures a * b / c == a * (b / c)
  {}

  lemma ConvertKnown(amount: real, from: string, to: string, rates: Rates)
    requires Known(rates, from) && Known(rates, to)
    ensures Convert(amount, from, to, rates) == amount * (RateOf(rates, from) / RateOf(rates, to))
  {
    if from == to { assert RateOf(rates, from) / RateOf(rates, to) == 1.0; }
    Associate(amount, RateOf(rates, from), RateOf(rates, to));
  }

  /** Conversion is additive, known rates or not. */
  lemma ConvertAdditive(a: real, b: real, from: string, to: string, rates: Rates)
    ensures Convert(a + b, from, to, rates) == Convert(a, from, to, rates) + Convert(b, from, to, rates)
  {
    if RateOf(rates, to) != 0.0 { Distribute(a, b, RateOf(rates, from), RateOf(rates, to)); }
  }

  lemma Distribute(a: real, b: real, r: real, s: real)
    requires s != 0.0
    ensures (a + b) * r / s == a * r / s + b * r / s
  {
    Associate(a + b, r, s);
    Associate(a, r, s);
    Associate(b, r, s);
  }

  /** Changing the base multiplies every converted amount by one factor. */
  lemma ConvertRebase(amount: real, from: string, base: string, base': string, rates: Rates)
    requires Known(rates, from) && Known(rates, base) && Known(rates, base')
    ensures Convert(amount, from, base', rates) == Factor(rates, base, base') * Convert(amount, from, base, rates)
  {
    var f, b, b' := RateOf(rates, from), RateOf(rates, base), RateOf(rates, base');
    ConvertKnown(amount, from, base, rates);
    ConvertKnown(amount, from, base', rates);
    Divide(f, b, b');
    Commute(amount, f / b, b / b');
  }

  lemma Commute(a: real, x: real, k: real)
    ensures a * (x * k) == k * (a * x)
  {}

  /** Converting in two hops is converting at once. */
  lemma ConvertComposes(amount: real, from: string, via: string, to: string, rates: Rates)
    requires Known(rates, from) && Known(rates, via) && Known(rates, to)
    ensures Convert(Convert(amount, from, via, rates), via, to, rates) == Convert(amount, from, to, rates)
  {
    ConvertRebase(amount, from, via, to, rates);
    ConvertKnown(Convert(amount, from, via, rates), via, to, rates);
  }

  /** Converting there and back is converting nothing, for known and unknown rates alike. */
  lemma ConvertBack(amount: real, from: string, to: string, rates: Rates)
    ensures Convert(Convert(amount, from, to, rates), to, from, rates) == amount
  {
    var f, t := RateOf(rates, from), RateOf(rates, to);
    if from != to && f != 0.0 && t != 0.0 {
      ThereAndBack(amount, f, t);
    }
  }

  lemma ThereAndBack(a: real, f: real, t: real)
    requires f != 0.0 && t != 0.0
    ensures a * f / t * t / f == a
  {
    assert a * f / t * t == a * f;
  }

  /** An amount that does not parse is worth nothing in any base, and one in the base currency itself. */
  lemma WorthOf(tx: Tx, base: string, rates: Rates)
    ensures tx.amount.None? ==> InBase(base, rates)(tx) == 0.0
    ensures tx.amount.Some? && tx.currency == base ==> InBase(base, rates)(tx) == tx.amount.value
  {
    if tx.amount.None? { ConvertAdditive(0.0, 0.0, tx.currency, base, rates); }
  }

  /** The last listed rate of a currency counts; without one the hryvnia is 1 and any other currency unknown. */
  lemma {:induction false} LastRateWins(listed: seq<(string, real)>, i: nat, c: string)
    ensures i < |listed| && listed[i].0 == c && (forall j :: i < j < |listed| ==> listed[j].0 != c) ==>
              RateOf(RateMap(listed), c) == listed[i].1
    ensures (forall j :: 0 <= j < |listed| ==> listed[j].0 != c) ==>
              RateOf(RateMap(listed), c) == if c == "UAH" then 1.0 else 0.0
    decreases |listed|
  {
    if listed != [] {
      var last := |listed| - 1;
      LastRateWins(listed[..last], i, c);
    }
  }

  /** Every transaction is worth k times as much under v as under w. */
  predicate Rescaled(k: real, txs: seq<Tx>, w: Tx -> real, v: Tx -> real) {
    forall tx :: tx in txs ==> v(tx) == k * w(tx)
  }

  /** When every currency is known, changing the base rescales every transaction by one positive factor. */
  lemma KnownRatesRescale(txs: seq<Tx>, base: string, base': string, rates: Rates) returns (k: real)
    requires AllKnown(rates, txs) && Known(rates, base) && Known(rates, base')
    ensures k == Factor(rates, base, base') && k > 0.0 && Rescaled(k, txs, InBase(base, rates), InBase(base', rates))
  {
    k := Factor(rates, base, base');
    FactorPositive(rates, base, base');
    forall tx | tx in txs ensures InBase(base', rates)(tx) == k * InBase(base, rates)(tx) {
      ConvertRebase(if tx.amount.Some? then tx.amount.value else 0.0, tx.currency, base, base', rates);
    }
  }

  lemma ConvertSign(amount: real, from: string, to: string, rates: Rates)
    requires amount >= 0.0 && (forall c :: c in rates ==> rates[c] >= 0.0)
    ensures Convert(amount, from, to, rates) >= 0.0
  {
    var f, t := RateOf(rates, from), RateOf(rates, to);
    if f != 0.0 && t != 0.0 {
      assert f > 0.0 && t > 0.0;
      assert amount * f >= 0.0;
    }
  }

  /** A Go map lookup: 0 for a missing key. */
  function At(m: map<Uuid, real>, c: Uuid): real { if c in m then m[c] else 0.0 }

  // ---- ratios ----

  lemma RatioScale(k: real, a: real, b: real)
    requires k != 0.0 && b != 0.0
    ensures k * b != 0.0 && (k * a) / (k * b) == a / b
  {
    assert k * b != 0.0;
    assert a == a / b * b;
    assert k * a == a / b * (k * b);
  }
}
