/**
 * The dashboard's tax projection: pick the schedule entry for the simulated year
 * (falling back to the first entry), then total, over every document read, the
 * current load (PIS + COFINS + ICMS) and the projected load (reduced ICMS + IBS + CBS).
 */
module Dashboard {
  import opened Wrappers
  import opened Types
  import opened Constants

  /** The position of the entry `rates.find(r => r.year === year)` returns: the first one for `year`, if any. */
  function FindYear(rates: seq<TaxRateYear>, year: int): (r: Option<nat>)
    ensures r.Some? ==> r.value < |rates| && rates[r.value].year == year &&
                        forall k :: 0 <= k < r.value ==> rates[k].year != year
    ensures r.None? <==> forall k :: 0 <= k < |rates| ==> rates[k].year != year
    decreases |rates|
  {
    if rates == [] then None
    else if rates[0].year == year then Some(0)
    else match FindYear(rates[1..], year)
      case None => None
      case Some(k) => Some(k + 1)
  }

  /**
   * `rates.find(r => r.year === year) || rates[0]`: the first entry for the year, or
   * the first entry of the schedule when no entry has that year.
   */
  function SelectRate(rates: seq<TaxRateYear>, year: int): (r: TaxRateYear)
    requires |rates| > 0
    ensures r in rates
    ensures (exists k :: 0 <= k < |rates| && rates[k].year == year) ==> r.year == year
    ensures (forall k :: 0 <= k < |rates| ==> rates[k].year != year) ==> r == rates[0]
    ensures forall k :: (0 <= k < |rates| && rates[k].year == year &&
                         (forall i :: 0 <= i < k ==> rates[i].year != year)) ==> r == rates[k]
  {
    match FindYear(rates, year)
    case Some(k) => rates[k]
    case None => rates[0]
  }

  /** A year the schedule does not list gets the same rates as the schedule's first year. */
  lemma AbsentYearFallsBack(rates: seq<TaxRateYear>, year: int)
    requires |rates| > 0
    requires forall k :: 0 <= k < |rates| ==> rates[k].year != year
    ensures SelectRate(rates, year) == SelectRate(rates, rates[0].year)
  {
    assert FindYear(rates, rates[0].year) == Some(0);
  }

  /** In a schedule with one entry per year, the entry for a listed year is the one selected. */
  lemma SelectKeyedRate(rates: seq<TaxRateYear>, k: nat, year: int)
    requires KeyedByYear(rates) && k < |rates| && rates[k].year == year
    ensures SelectRate(rates, year) == rates[k]
  {
    var f := FindYear(rates, year);
    assert f.Some?;
  }

  /** On the default schedule, 2027 to 2033 select their own entry and any other year selects 2027. */
  lemma DefaultScheduleSelection(year: int)
    ensures InitialYear <= year < InitialYear + 7 ==> SelectRate(SimulationYears, year) == SimulationYears[year - InitialYear]
    ensures !(InitialYear <= year < InitialYear + 7) ==> SelectRate(SimulationYears, year) == SimulationYears[0]
    ensures SimulationYears[0].year == InitialYear
  {
    ScheduleYears();
    ScheduleValid();
    if InitialYear <= year < InitialYear + 7 {
      SelectKeyedRate(SimulationYears, year - InitialYear, year);
    }
  }

  /** The four amounts of a document that the projection reads. */
  datatype Amounts = Amounts(vlDoc: real, vlIcms: real, vlPis: real, vlCofins: real)

  function OfGoods(rec: SpedC100): Amounts {
    Amounts(rec.vlDoc, rec.vlIcms, rec.vlPis, rec.vlCofins)
  }

  function OfEnergy(rec: SpedC500): Amounts {
    Amounts(rec.vlDoc, rec.vlIcms, rec.vlPis, rec.vlCofins)
  }

  function GoodsAmounts(s: seq<SpedC100>): seq<Amounts> {
    seq(|s|, k requires 0 <= k < |s| => OfGoods(s[k]))
  }

  function EnergyAmounts(s: seq<SpedC500>): seq<Amounts> {
    seq(|s|, k requires 0 <= k < |s| => OfEnergy(s[k]))
  }

  /** ICMS after the year's reduction: `vlIcms - vlIcms * reduc / 100`, the unreduced share of today's ICMS. */
  function ProjectedIcms(vlIcms: real, rate: TaxRateYear): (r: real)
    ensures r == vlIcms * (100.0 - rate.percReducICMS) / 100.0
  {
    vlIcms - vlIcms * rate.percReducICMS / 100.0
  }

  /** IBS on the document value: `vlDoc * (ibs / 100)`; never negative for a non-negative value and rate. */
  function ProjectedIbs(vlDoc: real, rate: TaxRateYear): (r: real)
    ensures vlDoc >= 0.0 && rate.percIBS >= 0.0 ==> r >= 0.0
    ensures rate.percIBS == 0.0 ==> r == 0.0
  {
    vlDoc * (rate.percIBS / 100.0)
  }

  /** CBS on the document value: `vlDoc * (cbs / 100)`; never negative for a non-negative value and rate. */
  function ProjectedCbs(vlDoc: real, rate: TaxRateYear): (r: real)
    ensures vlDoc >= 0.0 && rate.percCBS >= 0.0 ==> r >= 0.0
    ensures rate.percCBS == 0.0 ==> r == 0.0
  {
    vlDoc * (rate.percCBS / 100.0)
  }

  /** What a total adds up: today's load, or the load projected under one schedule entry. */
  datatype Measure = Current | Projected(rate: TaxRateYear)

  /** The amounts and rates a real document and schedule carry: nothing negative, a reduction of at most 100. */
  predicate NonNegative(m: Measure, a: Amounts) {
    a.vlDoc >= 0.0 && a.vlIcms >= 0.0 && a.vlPis >= 0.0 && a.vlCofins >= 0.0 &&
    (m.Projected? ==> m.rate.percIBS >= 0.0 && m.rate.percCBS >= 0.0 && 0.0 <= m.rate.percReducICMS <= 100.0)
  }

  /** A document's share of a total; it is never negative for non-negative amounts and rates. */
  function Load(m: Measure, a: Amounts): (r: real)
    ensures NonNegative(m, a) ==> r >= 0.0
  {
    match m
    case Current => a.vlPis + a.vlCofins + a.vlIcms
    case Projected(rate) =>
      var r := ProjectedIcms(a.vlIcms, rate) + ProjectedIbs(a.vlDoc, rate) + ProjectedCbs(a.vlDoc, rate);
      assert NonNegative(m, a) ==> r >= 0.0 by {
        if NonNegative(m, a) {
          ReducedIcmsBounds(a.vlIcms, rate);
        }
      }
      r
  }

  /** The sum of `Load(m, _)` over the documents, in order: nothing for no document, its load for one. */
  function SumOf(s: seq<Amounts>, m: Measure): (t: real)
    ensures s == [] ==> t == 0.0
    ensures |s| == 1 ==> t == Load(m, s[0])
    decreases |s|
  {
    if s == [] then 0.0 else SumOf(s[..|s| - 1], m) + Load(m, s[|s| - 1])
  }

  /** A total over documents with non-negative amounts, under a sane schedule entry, is never negative. */
  lemma {:induction false} SumNonNegative(s: seq<Amounts>, m: Measure)
    requires forall k :: 0 <= k < |s| ==> NonNegative(m, s[k])
    ensures SumOf(s, m) >= 0.0
    decreases |s|
  {
    if s != [] {
      SumNonNegative(s[..|s| - 1], m);
      assert Load(m, s[|s| - 1]) >= 0.0;
    }
  }

  /** Every document the dashboard totals: goods, then energy (C500 then C600), then freight. */
  function AllAmounts(d: SpedData): seq<Amounts> {
    GoodsAmounts(d.c100) + EnergyAmounts(d.c500 + d.c600) + GoodsAmounts(d.d100)
  }

  datatype Totals = Totals(current: real, projected: real, diff: real)

  /**
   * The totals the dashboard shows: all zero without data; otherwise each total is the
   * goods, C500, C600 and freight subtotals added up, and the difference is projected
   * minus current.
   */
  function TotalsOf(data: Option<SpedData>, rate: TaxRateYear): (r: Totals)
    ensures data.None? ==> r == Totals(0.0, 0.0, 0.0)
    ensures r.diff == r.projected - r.current
    ensures data.Some? ==> r.current == Subtotals(data.value, Current)
    ensures data.Some? ==> r.projected == Subtotals(data.value, Projected(rate))
  {
    match data
    case None => Totals(0.0, 0.0, 0.0)
    case Some(d) =>
      AllAmountsSums(d, Current);
      AllAmountsSums(d, Projected(rate));
      EnergySums(d, Current);
      EnergySums(d, Projected(rate));
      var current := SumOf(AllAmounts(d), Current);
      var projected := SumOf(AllAmounts(d), Projected(rate));
      Totals(current, projected, projected - current)
  }

  /** The four category subtotals of one measure, added up. */
  function Subtotals(d: SpedData, m: Measure): real {
    SumOf(GoodsAmounts(d.c100), m) + SumOf(EnergyAmounts(d.c500), m) +
    SumOf(EnergyAmounts(d.c600), m) + SumOf(GoodsAmounts(d.d100), m)
  }

  /**
   * The body of each `forEach` pass: the document's PIS + COFINS + ICMS goes to the
   * current sum, and its reduced ICMS + IBS + CBS to the projected sum.
   */
  method AddDocument(a: Amounts, currentRate: TaxRateYear, current0: real, projected0: real)
    returns (currentTotal: real, projectedTotal: real)
    ensures currentTotal == current0 + Load(Current, a)
    ensures projectedTotal == projected0 + Load(Projected(currentRate), a)
  {
    currentTotal := current0 + (a.vlPis + a.vlCofins + a.vlIcms);
    var icmsProjected := a.vlIcms - ((a.vlIcms * currentRate.percReducICMS) / 100.0);
    var ibsProjected := a.vlDoc * (currentRate.percIBS / 100.0);
    var cbsProjected := a.vlDoc * (currentRate.percCBS / 100.0);
    projectedTotal := projected0 + (icmsProjected + ibsProjected + cbsProjected);
  }

  /**
   * One `forEach` pass over goods or freight documents: each adds PIS + COFINS + ICMS
   * to the current sum and reduced ICMS + IBS + CBS to the projected sum.
   */
  method AddGoods(recs: seq<SpedC100>, currentRate: TaxRateYear, current0: real, projected0: real)
    returns (currentTotal: real, projectedTotal: real)
    ensures currentTotal == current0 + SumOf(GoodsAmounts(recs), Current)
    ensures projectedTotal == projected0 + SumOf(GoodsAmounts(recs), Projected(currentRate))
  {
    currentTotal, projectedTotal := current0, projected0;
    for i := 0 to |recs|
      invariant currentTotal == current0 + SumOf(GoodsAmounts(recs[..i]), Current)
      invariant projectedTotal == projected0 + SumOf(GoodsAmounts(recs[..i]), Projected(currentRate))
    {
      var rec := recs[i];
      currentTotal, projectedTotal := AddDocument(OfGoods(rec), currentRate, currentTotal, projectedTotal);
      assert recs[..i + 1] == recs[..i] + [rec];
      GoodsSnoc(recs[..i], rec, Current);
      GoodsSnoc(recs[..i], rec, Projected(currentRate));
    }
    assert recs[..|recs|] == recs;
  }

  /** The same pass over energy documents (C500 and C600). */
  method AddEnergy(recs: seq<SpedC500>, currentRate: TaxRateYear, current0: real, projected0: real)
    returns (currentTotal: real, projectedTotal: real)
    ensures currentTotal == current0 + SumOf(EnergyAmounts(recs), Current)
    ensures projectedTotal == projected0 + SumOf(EnergyAmounts(recs), Projected(currentRate))
  {
    currentTotal, projectedTotal := current0, projected0;
    for i := 0 to |recs|
      invariant currentTotal == current0 + SumOf(EnergyAmounts(recs[..i]), Current)
      invariant projectedTotal == projected0 + SumOf(EnergyAmounts(recs[..i]), Projected(currentRate))
    {
      var rec := recs[i];
      currentTotal, projectedTotal := AddDocument(OfEnergy(rec), currentRate, currentTotal, projectedTotal);
      assert recs[..i + 1] == recs[..i] + [rec];
      EnergySnoc(recs[..i], rec, Current);
      EnergySnoc(recs[..i], rec, Projected(currentRate));
    }
    assert recs[..|recs|] == recs;
  }

  /**
   * `calculateTotals`: zeros without data; otherwise the goods pass, the energy pass
   * over C500 followed by C600, and the freight pass, then the difference.
   */
  method CalculateTotals(spedData: Option<SpedData>, taxRates: seq<TaxRateYear>, year: int) returns (t: Totals)
    requires |taxRates| > 0
    ensures t == TotalsOf(spedData, SelectRate(taxRates, year))
    ensures spedData.None? ==> t == Totals(0.0, 0.0, 0.0)
    ensures t.diff == t.projected - t.current
  {
    var currentRate := SelectRate(taxRates, year);
    if spedData.None? {
      return Totals(0.0, 0.0, 0.0);
    }
    var d := spedData.value;
    var currentTotal, projectedTotal := AddGoods(d.c100, currentRate, 0.0, 0.0);
    currentTotal, projectedTotal := AddEnergy(d.c500 + d.c600, currentRate, currentTotal, projectedTotal);
    currentTotal, projectedTotal := AddGoods(d.d100, currentRate, currentTotal, projectedTotal);
    AllAmountsSums(d, Current);
    AllAmountsSums(d, Projected(currentRate));
    t := Totals(currentTotal, projectedTotal, projectedTotal - currentTotal);
  }

  /** One more goods or freight document adds its own share to a total. */
  lemma GoodsSnoc(s: seq<SpedC100>, rec: SpedC100, m: Measure)
    ensures SumOf(GoodsAmounts(s + [rec]), m) == SumOf(GoodsAmounts(s), m) + Load(m, OfGoods(rec))
  {
    var a := GoodsAmounts(s + [rec]);
    assert a[..|s|] == GoodsAmounts(s);
  }

  /** One more energy document adds its own share to a total. */
  lemma EnergySnoc(s: seq<SpedC500>, rec: SpedC500, m: Measure)
    ensures SumOf(EnergyAmounts(s + [rec]), m) == SumOf(EnergyAmounts(s), m) + Load(m, OfEnergy(rec))
  {
    var a := EnergyAmounts(s + [rec]);
    assert a[..|s|] == EnergyAmounts(s);
  }

  /** A total over two runs of documents is the sum of the two totals. */
  lemma {:induction false} SumAppend(a: seq<Amounts>, b: seq<Amounts>, m: Measure)
    ensures SumOf(a + b, m) == SumOf(a, m) + SumOf(b, m)
    decreases |b|
  {
    if b == [] {
      assert a + b == a;
    } else {
      var n := |b|;
      assert (a + b)[..|a + b| - 1] == a + b[..n - 1];
      SumAppend(a, b[..n - 1], m);
    }
  }

  /** The grand total is the goods total plus the energy total plus the freight total. */
  lemma AllAmountsSums(d: SpedData, m: Measure)
    ensures SumOf(AllAmounts(d), m) ==
      SumOf(GoodsAmounts(d.c100), m) + SumOf(EnergyAmounts(d.c500 + d.c600), m) + SumOf(GoodsAmounts(d.d100), m)
  {
    var g := GoodsAmounts(d.c100);
    var e := EnergyAmounts(d.c500 + d.c600);
    SumAppend(g + e, GoodsAmounts(d.d100), m);
    SumAppend(g, e, m);
  }

  /** The energy total is the C500 total plus the C600 total. */
  lemma EnergySums(d: SpedData, m: Measure)
    ensures SumOf(EnergyAmounts(d.c500 + d.c600), m) == SumOf(EnergyAmounts(d.c500), m) + SumOf(EnergyAmounts(d.c600), m)
  {
    assert EnergyAmounts(d.c500 + d.c600) == EnergyAmounts(d.c500) + EnergyAmounts(d.c600);
    SumAppend(EnergyAmounts(d.c500), EnergyAmounts(d.c600), m);
  }

  /** Reordering the documents changes no total. */
  lemma {:induction false} SumPermutation(a: seq<Amounts>, b: seq<Amounts>, m: Measure)
    requires multiset(a) == multiset(b)
    ensures SumOf(a, m) == SumOf(b, m)
    decreases |a|
  {
    if a == [] {
      assert |b| == |multiset(b)| == 0;
    } else {
      var n := |a|;
      var x := a[n - 1];
      assert a == a[..n - 1] + [x];
      assert x in multiset(b);
      var k :| 0 <= k < |b| && b[k] == x;
      var rest := b[..k] + b[k + 1..];
      assert b == b[..k] + [x] + b[k + 1..];
      assert multiset(a) == multiset(a[..n - 1]) + multiset{x};
      assert multiset(b) == multiset(b[..k] + [x]) + multiset(b[k + 1..]);
      assert multiset(rest) == multiset(b[..k]) + multiset(b[k + 1..]);
      assert multiset(a[..n - 1]) == multiset(a) - multiset{x};
      assert multiset(rest) == multiset(b) - multiset{x};
      SumPermutation(a[..n - 1], rest, m);
      SumAppend(b[..k] + [x], b[k + 1..], m);
      SumAppend(b[..k], [x], m);
      SumAppend(b[..k], b[k + 1..], m);
      assert SumOf([x], m) == Load(m, x) by {
        assert [x][..0] == [];
      }
    }
  }

  /** With no documents every total is zero, and the difference is projected minus current. */
  lemma {:induction false} EmptyTotals(rate: TaxRateYear)
    ensures TotalsOf(Some(SpedData([], [], [], [])), rate) == Totals(0.0, 0.0, 0.0)
  {
    assert AllAmounts(SpedData([], [], [], [])) == [];
  }

  /**
   * The 2027 entry (IBS 0.1%, CBS 0.9%, ICMS reduced by 10%) on a document of value
   * 1000 with ICMS 100, PIS 10 and COFINS 20: a current load of 130, a projected one of 100.
   */
  lemma WorkedExample()
    ensures Load(Current, Amounts(1000.0, 100.0, 10.0, 20.0)) == 130.0
    ensures Load(Projected(SimulationYears[0]), Amounts(1000.0, 100.0, 10.0, 20.0)) == 100.0
    ensures ProjectedIcms(100.0, SimulationYears[0]) == 90.0
    ensures ProjectedIbs(1000.0, SimulationYears[0]) == 1.0
    ensures ProjectedCbs(1000.0, SimulationYears[0]) == 9.0
  {
  }

  /** With a reduction between 0 and 100%, projected ICMS lies between 0 and the current ICMS. */
  lemma ReducedIcmsBounds(vlIcms: real, rate: TaxRateYear)
    requires vlIcms >= 0.0 && 0.0 <= rate.percReducICMS <= 100.0
    ensures 0.0 <= ProjectedIcms(vlIcms, rate) <= vlIcms
    ensures rate.percReducICMS == 0.0 ==> ProjectedIcms(vlIcms, rate) == vlIcms
    ensures rate.percReducICMS == 100.0 ==> ProjectedIcms(vlIcms, rate) == 0.0
  {
    assert vlIcms * rate.percReducICMS <= vlIcms * 100.0;
  }
}
