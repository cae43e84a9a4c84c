/** The default transition schedule, used until the rate table is read. */
module Constants {
  import opened Types

  const SimulationYears: seq<TaxRateYear> := [
    TaxRateYear(2027, 0.1, 0.9, 10.0),
    TaxRateYear(2028, 0.2, 1.8, 20.0),
    TaxRateYear(2029, 0.3, 2.7, 40.0),
    TaxRateYear(2030, 0.4, 3.6, 60.0),
    TaxRateYear(2031, 0.5, 4.5, 80.0),
    TaxRateYear(2032, 0.6, 5.4, 100.0),
    TaxRateYear(2033, 0.7, 6.3, 100.0)
  ]

  const InitialYear: int := 2027

  /** The rows the schema script seeds into the rate table: (ano, perc_ibs, perc_cbs, perc_reduc_icms). */
  const SeedRows: seq<(int, real, real, real)> := [
    (2027, 0.1, 0.9, 10.0),
    (2028, 0.2, 1.8, 20.0),
    (2029, 0.3, 2.7, 40.0),
    (2030, 0.4, 3.6, 60.0),
    (2031, 0.5, 4.5, 80.0),
    (2032, 0.6, 5.4, 100.0),
    (2033, 0.7, 6.3, 100.0)
  ]

  /** Seven consecutive years, starting at the initial year. */
  lemma ScheduleYears()
    ensures |SimulationYears| == 7
    ensures SimulationYears[0].year == InitialYear
    ensures forall i :: 0 <= i < |SimulationYears| ==> SimulationYears[i].year == InitialYear + i
  {
  }

  /** The default schedule meets the rate table's constraints. */
  lemma ScheduleValid()
    ensures ValidSchedule(SimulationYears)
  {
  }

  /** IBS, CBS and the ICMS reduction never decrease from one year to a later one. */
  lemma ScheduleNonDecreasing()
    ensures forall i, j :: 0 <= i <= j < |SimulationYears| ==>
      SimulationYears[i].percIBS <= SimulationYears[j].percIBS &&
      SimulationYears[i].percCBS <= SimulationYears[j].percCBS &&
      SimulationYears[i].percReducICMS <= SimulationYears[j].percReducICMS
  {
  }

  /** The default schedule holds exactly the seeded rows. */
  lemma ScheduleMatchesSeed()
    ensures |SeedRows| == |SimulationYears|
    ensures forall i :: 0 <= i < |SeedRows| ==>
      SeedRows[i] == (SimulationYears[i].year, SimulationYears[i].percIBS,
                      SimulationYears[i].percCBS, SimulationYears[i].percReducICMS)
  {
  }
}
