/**
 * The residual tables the extractors generate, term → mileage → rate, and
 * the operations the provider extractors share: the clamped adjusted rate
 * and the premium uplift of a whole table.
 */
module RateTables {
  import opened Wrappers
  import opened Numeric
  import Dicts

  /** mileage (km per year) → residual rate. */
  type Rates = Dicts.Dict<int, real>

  /** term (months) → rates by mileage. */
  type RateTable = Dicts.Dict<int, Rates>

  /** The lease terms the generated tables cover. */
  const StandardTerms: seq<int> := [24, 36, 48, 60]

  /** The annual mileages the generated tables cover. */
  const StandardMileages: seq<int> := [10000, 15000, 20000, 30000]

  function Min(x: real, y: real): real {
    if x <= y then x else y
  }

  function Max(x: real, y: real): real {
    if x >= y then x else y
  }

  /** round(min(0.95, rate + uplift), 4): a premium rate, capped at 95 %. */
  function Uplift(rate: real, uplift: real): (r: real)
    ensures r <= 0.95
    ensures FourPlaces(r)
    ensures FourPlaces(rate) && rate <= 0.95 && uplift >= 0.0 ==> rate <= r
  {
    UpliftBounds(rate, uplift);
    Round4(Min(0.95, rate + uplift))
  }

  lemma UpliftBounds(rate: real, uplift: real)
    ensures Round4(Min(0.95, rate + uplift)) <= 0.95
    ensures FourPlaces(rate) && rate <= 0.95 && uplift >= 0.0 ==> rate <= Round4(Min(0.95, rate + uplift))
  {
    Round4Monotone(Min(0.95, rate + uplift), 0.95);
    Round4OfFourPlaces(0.95);
    if FourPlaces(rate) && rate <= 0.95 && uplift >= 0.0 {
      Round4Monotone(rate, Min(0.95, rate + uplift));
      Round4OfFourPlaces(rate);
    }
  }

  /** The premium rates of one term: every mileage keeps its place and gets the uplifted rate. */
  function UpliftRates(rates: Rates, uplift: real): (r: Rates) {
    Dicts.MapValues(rates, (x: real) => Uplift(x, uplift))
  }

  /** The premium table of a normal table. */
  function PremiumTable(normal: RateTable, uplift: real): (r: RateTable) {
    Dicts.MapValues(normal, (rates: Rates) => UpliftRates(rates, uplift))
  }

  /** Every rate of the table has four decimals and is at most 95 %. */
  predicate Capped(t: RateTable) {
    forall e :: e in t ==> forall x :: x in e.1 ==> FourPlaces(x.1) && x.1 <= 0.95
  }

  /**
   * The premium table has exactly the normal table's terms and mileages, in
   * order, and every premium rate is the uplifted normal rate.
   */
  lemma PremiumShape(normal: RateTable, uplift: real, term: int, mileage: int)
    ensures Dicts.Keys(PremiumTable(normal, uplift)) == Dicts.Keys(normal)
    ensures forall i :: 0 <= i < |normal| ==>
      Dicts.Keys(PremiumTable(normal, uplift)[i].1) == Dicts.Keys(normal[i].1)
    ensures Dicts.Get(PremiumTable(normal, uplift), term).Some? <==> Dicts.Get(normal, term).Some?
    ensures Dicts.Get(normal, term).Some? ==>
      Dicts.Get(PremiumTable(normal, uplift), term) == Some(UpliftRates(Dicts.Get(normal, term).value, uplift))
  {
    Dicts.MapValuesKeys(normal, (rates: Rates) => UpliftRates(rates, uplift));
    forall i | 0 <= i < |normal|
      ensures Dicts.Keys(PremiumTable(normal, uplift)[i].1) == Dicts.Keys(normal[i].1)
    {
      Dicts.MapValuesKeys(normal[i].1, (x: real) => Uplift(x, uplift));
    }
    Dicts.MapValuesGet(normal, (rates: Rates) => UpliftRates(rates, uplift), term);
  }

  /** Reading a premium rate is uplifting the normal rate stored under the same mileage. */
  lemma PremiumRate(rates: Rates, uplift: real, mileage: int)
    ensures Dicts.Get(UpliftRates(rates, uplift), mileage) ==
      if Dicts.HasKey(rates, mileage) then Some(Uplift(Dicts.Get(rates, mileage).value, uplift)) else None
  {
    Dicts.MapValuesGet(rates, (x: real) => Uplift(x, uplift), mileage);
  }

  /** With a non-negative uplift of a capped table, every premium rate lies between its normal rate and 95 %. */
  lemma PremiumWithinBounds(normal: RateTable, uplift: real)
    requires Capped(normal) && uplift >= 0.0
    ensures forall i, k :: 0 <= i < |normal| && 0 <= k < |normal[i].1| ==>
      normal[i].1[k].1 <= PremiumTable(normal, uplift)[i].1[k].1 <= 0.95
    ensures Capped(PremiumTable(normal, uplift))
  {
  }

  /**
   * _apply_premium_adjustment: for each term a fresh dictionary, filled
   * mileage by mileage with the uplifted rate, stored under the term. The
   * keys of a Python dictionary are distinct, so every store is of a new key.
   */
  method ApplyPremium(normal: RateTable, uplift: real) returns (premium: RateTable)
    requires Dicts.UniqueKeys(normal)
    requires forall e :: e in normal ==> Dicts.UniqueKeys(e.1)
    ensures premium == PremiumTable(normal, uplift)
  {
    premium := [];
    for i := 0 to |normal|
      invariant premium == PremiumTable(normal[..i], uplift)
    {
      var (term, rates) := normal[i];
      assert Dicts.Keys(premium) == Dicts.Keys(normal[..i]) by {
        Dicts.MapValuesKeys(normal[..i], (r: Rates) => UpliftRates(r, uplift));
      }
      var uplifted := UpliftEach(rates, uplift);
      Dicts.PutNew(premium, term, uplifted);
      premium := Dicts.Put(premium, term, uplifted);
      assert normal[..i + 1] == normal[..i] + [normal[i]];
    }
    assert normal[..|normal|] == normal;
  }

  /** The inner loop of _apply_premium_adjustment over one term's mileages. */
  method UpliftEach(rates: Rates, uplift: real) returns (out: Rates)
    requires Dicts.UniqueKeys(rates)
    ensures out == UpliftRates(rates, uplift)
  {
    out := [];
    for k := 0 to |rates|
      invariant out == UpliftRates(rates[..k], uplift)
    {
      var (mileage, rate) := rates[k];
      assert Dicts.Keys(out) == Dicts.Keys(rates[..k]) by {
        Dicts.MapValuesKeys(rates[..k], (x: real) => Uplift(x, uplift));
      }
      Dicts.PutNew(out, mileage, Uplift(rate, uplift));
      out := Dicts.Put(out, mileage, Uplift(rate, uplift));
      assert rates[..k + 1] == rates[..k] + [rates[k]];
    }
    assert rates[..|rates|] == rates;
  }

  /** max(0.1, min(0.95, base + adjustment)) rounded to four places: a clamped residual rate. */
  function AdjustedRate(base: real, adjustment: real): (r: real)
    ensures 0.1 <= r <= 0.95
    ensures FourPlaces(r)
    ensures 0.1 <= base + adjustment <= 0.95 && FourPlaces(base + adjustment) ==> r == base + adjustment
  {
    ClampBounds(base + adjustment);
    Round4(Max(0.1, Min(0.95, base + adjustment)))
  }

  lemma ClampBounds(x: real)
    ensures 0.1 <= Round4(Max(0.1, Min(0.95, x))) <= 0.95
    ensures 0.1 <= x <= 0.95 && FourPlaces(x) ==> Round4(Max(0.1, Min(0.95, x))) == x
  {
    assert FourPlaces(0.1) && FourPlaces(0.95);
    Round4Within(Max(0.1, Min(0.95, x)), 0.1, 0.95);
    if 0.1 <= x <= 0.95 && FourPlaces(x) {
      Round4OfFourPlaces(x);
    }
  }
}
