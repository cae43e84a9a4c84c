/**
 * The schedule editor: typing in a percentage cell rewrites that field of the entry
 * for its year, and "Sincronizar" sends one entry to the rate table, marking the year
 * busy while the request is outstanding.
 */
module TaxRatesManager {
  import opened Wrappers
  import opened Numbers
  import opened Types
  import opened Dashboard

  /** The three editable cells of a schedule row. */
  datatype RateField = PercIBS | PercCBS | PercReducICMS

  function FieldValue(tr: TaxRateYear, field: RateField): real {
    match field
    case PercIBS => tr.percIBS
    case PercCBS => tr.percCBS
    case PercReducICMS => tr.percReducICMS
  }

  /** `{ ...tr, [field]: v }`. */
  function WithField(tr: TaxRateYear, field: RateField, v: real): (r: TaxRateYear)
    ensures r.year == tr.year
    ensures FieldValue(r, field) == v
    ensures forall other :: other != field ==> FieldValue(r, other) == FieldValue(tr, other)
  {
    match field
    case PercIBS => tr.(percIBS := v)
    case PercCBS => tr.(percCBS := v)
    case PercReducICMS => tr.(percReducICMS := v)
  }

  /** `parseFloat(value) || 0`: the number the text starts with, or 0 when there is none. */
  function ParsedInput(value: string): (r: real)
    ensures ParseFloat(value).Some? ==> r == ParseFloat(value).value
    ensures ParseFloat(value).None? ==> r == 0.0
  {
    ParseFloat(value).GetOr(0.0)
  }

  /** Text that is not a number, such as an emptied cell, is stored as 0. */
  lemma ParsedInputNotANumber(value: string)
    requires value == [] || (!IsDigit(value[0]) && !IsSpace(value[0]) && value[0] != '-' && value[0] != '+' && value[0] != '.')
    ensures ParsedInput(value) == 0.0
  {
    ParseFloatNotANumber(value);
  }

  /** A typed decimal such as "12.5" is stored as its exact value. */
  lemma ParsedInputDecimal(whole: string, frac: string)
    requires AllDigits(whole) && AllDigits(frac) && whole != []
    ensures ParsedInput(whole + "." + frac) == DecimalValue(whole, frac)
  {
    ParseFloatDecimal(whole, frac, "");
    assert whole + "." + frac + "" == whole + "." + frac;
  }

  /**
   * `handleChange`: `prev.map(tr => tr.year === year ? { ...tr, [field]: newVal } : tr)`.
   * Entries of other years are untouched; entries of the year get the new value in
   * that field only; order, length and years are kept.
   */
  function HandleChange(rates: seq<TaxRateYear>, year: int, field: RateField, value: string): (r: seq<TaxRateYear>)
    ensures |r| == |rates|
    ensures forall k :: 0 <= k < |r| ==> r[k].year == rates[k].year
    ensures forall k :: 0 <= k < |r| && rates[k].year != year ==> r[k] == rates[k]
    ensures forall k :: 0 <= k < |r| && rates[k].year == year ==>
      FieldValue(r[k], field) == ParsedInput(value) &&
      forall other :: other != field ==> FieldValue(r[k], other) == FieldValue(rates[k], other)
    decreases |rates|
  {
    if rates == [] then []
    else
      var n := |rates|;
      var tr := rates[n - 1];
      HandleChange(rates[..n - 1], year, field, value) +
        [if tr.year == year then WithField(tr, field, ParsedInput(value)) else tr]
  }

  /** A year the schedule does not list leaves it as it was. */
  lemma HandleChangeAbsent(rates: seq<TaxRateYear>, year: int, field: RateField, value: string)
    requires forall k :: 0 <= k < |rates| ==> rates[k].year != year
    ensures HandleChange(rates, year, field, value) == rates
  {
  }

  /** Typing the same text twice is the same as typing it once. */
  lemma HandleChangeIdempotent(rates: seq<TaxRateYear>, year: int, field: RateField, value: string)
    ensures HandleChange(HandleChange(rates, year, field, value), year, field, value) == HandleChange(rates, year, field, value)
  {
    var once := HandleChange(rates, year, field, value);
    var twice := HandleChange(once, year, field, value);
    forall k | 0 <= k < |rates|
      ensures twice[k] == once[k]
    {
      if rates[k].year == year {
        assert FieldValue(twice[k], field) == FieldValue(once[k], field);
        match field
        case PercIBS =>
          assert FieldValue(twice[k], PercCBS) == FieldValue(once[k], PercCBS);
          assert FieldValue(twice[k], PercReducICMS) == FieldValue(once[k], PercReducICMS);
        case PercCBS =>
          assert FieldValue(twice[k], PercIBS) == FieldValue(once[k], PercIBS);
          assert FieldValue(twice[k], PercReducICMS) == FieldValue(once[k], PercReducICMS);
        case PercReducICMS =>
          assert FieldValue(twice[k], PercIBS) == FieldValue(once[k], PercIBS);
          assert FieldValue(twice[k], PercCBS) == FieldValue(once[k], PercCBS);
      }
    }
  }

  /** An edit keeps one entry per year, and keeps a valid schedule valid when the new value is in range. */
  lemma HandleChangeKeepsSchedule(rates: seq<TaxRateYear>, year: int, field: RateField, value: string)
    ensures KeyedByYear(rates) ==> KeyedByYear(HandleChange(rates, year, field, value))
    ensures ValidSchedule(rates) && ParsedInput(value) >= 0.0 &&
            (field == PercReducICMS ==> ParsedInput(value) <= 100.0) ==>
            ValidSchedule(HandleChange(rates, year, field, value))
  {
    var r := HandleChange(rates, year, field, value);
    if ValidSchedule(rates) && ParsedInput(value) >= 0.0 && (field == PercReducICMS ==> ParsedInput(value) <= 100.0) {
      forall k | 0 <= k < |r|
        ensures r[k].percIBS >= 0.0 && r[k].percCBS >= 0.0 && 0.0 <= r[k].percReducICMS <= 100.0
      {
        assert FieldValue(r[k], PercIBS) >= 0.0;
        assert FieldValue(r[k], PercCBS) >= 0.0;
        assert 0.0 <= FieldValue(r[k], PercReducICMS) <= 100.0;
      }
      assert KeyedByYear(r) && forall k :: 0 <= k < |r| ==> 2027 <= r[k].year <= 2033;
    }
  }

  /** After an edit, the dashboard's lookup for that year sees the edited entry. */
  lemma HandleChangeSelected(rates: seq<TaxRateYear>, k: nat, field: RateField, value: string)
    requires KeyedByYear(rates) && k < |rates|
    ensures SelectRate(HandleChange(rates, rates[k].year, field, value), rates[k].year) ==
      WithField(rates[k], field, ParsedInput(value))
  {
    var year := rates[k].year;
    var r := HandleChange(rates, year, field, value);
    HandleChangeKeepsSchedule(rates, year, field, value);
    SelectKeyedRate(r, k, year);
    var w := WithField(rates[k], field, ParsedInput(value));
    assert FieldValue(r[k], PercIBS) == FieldValue(w, PercIBS);
    assert FieldValue(r[k], PercCBS) == FieldValue(w, PercCBS);
    assert FieldValue(r[k], PercReducICMS) == FieldValue(w, PercReducICMS);
  }

  /** What the editor did outwardly: a row sent to the rate table, or an alert, with the busy marker in force at the time. */
  datatype Event =
    | Upsert(row: TaxRateYear, busy: Option<int>)
    | Alert(message: string, busy: Option<int>)

  /** The editor's state: the schedule it edits, the year being sent, and what it has sent so far. */
  class RatesEditor {
    var taxRates: seq<TaxRateYear>
    var updatingYear: Option<int>
    var sent: seq<Event>

    constructor(taxRates: seq<TaxRateYear>)
      ensures this.taxRates == taxRates && updatingYear == None && sent == []
    {
      this.taxRates := taxRates;
      updatingYear := None;
      sent := [];
    }

    /** `setTaxRates(prev => ...)` with `handleChange`'s update. */
    method Change(year: int, field: RateField, value: string)
      modifies this
      ensures taxRates == HandleChange(old(taxRates), year, field, value)
      ensures updatingYear == old(updatingYear) && sent == old(sent)
    {
      taxRates := HandleChange(taxRates, year, field, value);
    }

    /**
     * `handleUpdate`: nothing happens when no entry has the year. Otherwise the year is
     * marked busy, the first entry for it is sent, an error (`upsertError`, the
     * request's outcome) raises an alert, and the marker is cleared either way.
     */
    method HandleUpdate(year: int, upsertError: Option<string>)
      modifies this
      ensures taxRates == old(taxRates)
      ensures FindYear(taxRates, year).None? ==> updatingYear == old(updatingYear) && sent == old(sent)
      ensures FindYear(taxRates, year).Some? ==>
        updatingYear == None &&
        sent == old(sent) + [Upsert(taxRates[FindYear(taxRates, year).value], Some(year))] +
          (if upsertError.Some? then [Alert(upsertError.value, Some(year))] else [])
    {
      var found := FindYear(taxRates, year);
      if found.None? {
        return;
      }
      var rate := taxRates[found.value];
      updatingYear := Some(year);
      sent := sent + [Upsert(rate, updatingYear)];
      if upsertError.Some? {
        sent := sent + [Alert(upsertError.value, updatingYear)];
      }
      updatingYear := None;
    }
  }
}
