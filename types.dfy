/**
 * The record and schedule shapes of the dashboard. Money and percentages are exact
 * reals; an operation direction that could not be read (JavaScript `NaN`) is `None`.
 */
module Types {
  import opened Wrappers

  /** A goods document (register C100); `indOper` is 0 for inbound and 1 for outbound. */
  datatype SpedC100 = SpedC100(
    cnpj: string,
    dtDoc: string,
    indOper: Option<int>,
    vlDoc: real,
    vlBcIcms: real,
    vlIcms: real,
    vlPis: real,
    vlCofins: real)

  /** A freight document (register D100) has exactly the shape of a goods document. */
  type SpedD100 = SpedC100

  /** An energy document (registers C500 and C600): no operation direction. */
  datatype SpedC500 = SpedC500(
    cnpj: string,
    dtDoc: string,
    vlDoc: real,
    vlBcIcms: real,
    vlIcms: real,
    vlPis: real,
    vlCofins: real)

  /** The four record sequences of one bookkeeping file; C600 debits reuse the C500 shape. */
  datatype SpedData = SpedData(
    c100: seq<SpedC100>,
    c500: seq<SpedC500>,
    c600: seq<SpedC500>,
    d100: seq<SpedD100>)

  /** One year of the transition schedule: IBS and CBS rates and the ICMS reduction, in percent. */
  datatype TaxRateYear = TaxRateYear(year: int, percIBS: real, percCBS: real, percReducICMS: real)

  /**
   * At most one schedule entry per year, as the rate table's primary key demands:
   * two positions holding the same year are the same position.
   */
  predicate KeyedByYear(rates: seq<TaxRateYear>): (b: bool)
    ensures b <==> forall i, j :: 0 <= i < |rates| && 0 <= j < |rates| && rates[i].year == rates[j].year ==> i == j
  {
    forall i, j :: 0 <= i < j < |rates| ==> rates[i].year != rates[j].year
  }

  /** The years of the transition, the only ones the rate table accepts. */
  const TransitionYears: set<int> := {2027, 2028, 2029, 2030, 2031, 2032, 2033}

  /**
   * The rate table's key and year range (2027 to 2033), plus this model's reading of
   * the rates: non-negative, and a reduction of at most 100. Such a schedule has at
   * most one entry per transition year, so at most seven entries.
   */
  predicate ValidSchedule(rates: seq<TaxRateYear>): (b: bool)
    ensures b ==> |rates| <= 7
  {
    var ok := KeyedByYear(rates) &&
      forall i :: 0 <= i < |rates| ==>
        2027 <= rates[i].year <= 2033 &&
        rates[i].percIBS >= 0.0 && rates[i].percCBS >= 0.0 &&
        0.0 <= rates[i].percReducICMS <= 100.0;
    assert ok ==> |rates| <= 7 by {
      if ok {
        assert |TransitionYears| == 7;
        DistinctYearsBound(rates, TransitionYears);
      }
    }
    ok
  }

  /** A schedule keyed by year, whose years all lie in `years`, has at most `|years|` entries. */
  lemma {:induction false} DistinctYearsBound(rates: seq<TaxRateYear>, years: set<int>)
    requires KeyedByYear(rates)
    requires forall i :: 0 <= i < |rates| ==> rates[i].year in years
    ensures |rates| <= |years|
    decreases |rates|
  {
    if rates != [] {
      var last := rates[|rates| - 1];
      var init := rates[..|rates| - 1];
      assert KeyedByYear(init);
      assert forall i :: 0 <= i < |init| ==> init[i].year in years - {last.year} by {
        forall i | 0 <= i < |init|
          ensures init[i].year in years - {last.year}
        {
          assert init[i] == rates[i];
        }
      }
      DistinctYearsBound(init, years - {last.year});
    }
  }
}
