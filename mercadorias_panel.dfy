/**
 * The goods panel: the C100 documents of one direction (inbound 0, outbound 1) and,
 * unless "all" is chosen, of one branch identifier, each shown with its month/year
 * and the same per-document projection the dashboard totals.
 */
module MercadoriasPanel {
  import opened Wrappers
  import opened Strings
  import opened Types
  import opened Dashboard

  /** The branch filter value that lets every identifier through. */
  const AllBranches: string := "all"

  /** The panel opens on outbound documents of every branch. */
  const DefaultDirection: int := 1
  const DefaultBranch: string := AllBranches

  /** `rec.indOper === indOperFilter && (cnpjFilter === 'all' || rec.cnpj === cnpjFilter)`. */
  predicate Shown(rec: SpedC100, indOperFilter: int, cnpjFilter: string)
    ensures Shown(rec, indOperFilter, cnpjFilter) ==> rec.indOper == Some(indOperFilter)
    ensures Shown(rec, indOperFilter, cnpjFilter) && cnpjFilter != AllBranches ==> rec.cnpj == cnpjFilter
    ensures rec.indOper == Some(indOperFilter) && rec.cnpj == cnpjFilter ==> Shown(rec, indOperFilter, cnpjFilter)
  {
    rec.indOper == Some(indOperFilter) && (cnpjFilter == AllBranches || rec.cnpj == cnpjFilter)
  }

  /** `c100.filter(...)`: the documents shown, in their original order. */
  function Filtered(c100: seq<SpedC100>, indOperFilter: int, cnpjFilter: string): (r: seq<SpedC100>)
    ensures |r| <= |c100|
    ensures forall rec :: rec in r <==> rec in c100 && Shown(rec, indOperFilter, cnpjFilter)
    decreases |c100|
  {
    if c100 == [] then []
    else
      var last := c100[|c100| - 1];
      Filtered(c100[..|c100| - 1], indOperFilter, cnpjFilter) + (if Shown(last, indOperFilter, cnpjFilter) then [last] else [])
  }

  /** Filtering keeps order: the documents of a first run come before those of a second. */
  lemma {:induction false} FilteredAppend(a: seq<SpedC100>, b: seq<SpedC100>, indOperFilter: int, cnpjFilter: string)
    ensures Filtered(a + b, indOperFilter, cnpjFilter) == Filtered(a, indOperFilter, cnpjFilter) + Filtered(b, indOperFilter, cnpjFilter)
    decreases |b|
  {
    if b == [] {
      assert a + b == a;
    } else {
      var n := |b|;
      var last := b[n - 1];
      var tail := if Shown(last, indOperFilter, cnpjFilter) then [last] else [];
      assert (a + b)[..|a + b| - 1] == a + b[..n - 1] && (a + b)[|a + b| - 1] == last;
      FilteredAppend(a, b[..n - 1], indOperFilter, cnpjFilter);
      assert Filtered(a + b, indOperFilter, cnpjFilter) == Filtered(a + b[..n - 1], indOperFilter, cnpjFilter) + tail;
      assert Filtered(b, indOperFilter, cnpjFilter) == Filtered(b[..n - 1], indOperFilter, cnpjFilter) + tail;
    }
  }

  /** A document whose direction could not be read is never shown, whatever the filters. */
  lemma UnreadDirectionHidden(c100: seq<SpedC100>, indOperFilter: int, cnpjFilter: string)
    requires forall k :: 0 <= k < |c100| ==> c100[k].indOper.None?
    ensures Filtered(c100, indOperFilter, cnpjFilter) == []
  {
  }

  /**
   * When every document is inbound or outbound, the dashboard's goods total is the
   * inbound panel's total plus the outbound panel's: the dashboard filters no direction.
   */
  lemma {:induction false} DirectionsPartition(c100: seq<SpedC100>, m: Measure)
    requires forall k :: 0 <= k < |c100| ==> c100[k].indOper == Some(0) || c100[k].indOper == Some(1)
    ensures SumOf(GoodsAmounts(c100), m) ==
      SumOf(GoodsAmounts(Filtered(c100, 0, AllBranches)), m) + SumOf(GoodsAmounts(Filtered(c100, 1, AllBranches)), m)
    decreases |c100|
  {
    if c100 != [] {
      var n := |c100|;
      var init := c100[..n - 1];
      var last := c100[n - 1];
      assert c100 == init + [last];
      var inbound := Filtered(init, 0, AllBranches);
      var outbound := Filtered(init, 1, AllBranches);
      DirectionsPartition(init, m);
      GoodsSnoc(init, last, m);
      if last.indOper == Some(0) {
        assert Filtered(c100, 0, AllBranches) == inbound + [last];
        assert Filtered(c100, 1, AllBranches) == outbound;
        GoodsSnoc(inbound, last, m);
      } else {
        assert Filtered(c100, 0, AllBranches) == inbound;
        assert Filtered(c100, 1, AllBranches) == outbound + [last];
        GoodsSnoc(outbound, last, m);
      }
    }
  }

  /** One row of the panel's table. */
  datatype Row = Row(
    cnpj: string,
    mesAno: string,
    vlDoc: real,
    vlPisCof: real,
    vlIcms: real,
    icmsProj: real,
    ibsProj: real,
    cbsProj: real)

  /**
   * A document's row: identifier, month/year, value, PIS + COFINS, ICMS, and the three
   * projections. With non-negative amounts and a sane schedule entry, projected ICMS
   * never exceeds today's ICMS and no projection is negative.
   */
  function RowOf(rec: SpedC100, currentRate: TaxRateYear): (r: Row)
    ensures NonNegative(Projected(currentRate), OfGoods(rec)) ==>
      0.0 <= r.icmsProj <= r.vlIcms && r.ibsProj >= 0.0 && r.cbsProj >= 0.0
  {
    var row := Row(rec.cnpj, MesAno(rec.dtDoc), rec.vlDoc, rec.vlPis + rec.vlCofins, rec.vlIcms,
                   ProjectedIcms(rec.vlIcms, currentRate),
                   ProjectedIbs(rec.vlDoc, currentRate),
                   ProjectedCbs(rec.vlDoc, currentRate));
    assert NonNegative(Projected(currentRate), OfGoods(rec)) ==> 0.0 <= row.icmsProj <= row.vlIcms by {
      if NonNegative(Projected(currentRate), OfGoods(rec)) {
        ReducedIcmsBounds(rec.vlIcms, currentRate);
      }
    }
    row
  }

  /** A row adds up to exactly the share the dashboard counts for the same document. */
  lemma RowMatchesDashboard(rec: SpedC100, currentRate: TaxRateYear)
    ensures RowOf(rec, currentRate).vlPisCof + RowOf(rec, currentRate).vlIcms == Load(Current, OfGoods(rec))
    ensures RowOf(rec, currentRate).icmsProj + RowOf(rec, currentRate).ibsProj + RowOf(rec, currentRate).cbsProj ==
      Load(Projected(currentRate), OfGoods(rec))
  {
  }

  /**
   * The panel: nothing without data; otherwise one row per shown document, in order,
   * with the schedule entry the dashboard would use.
   */
  function Panel(spedData: Option<SpedData>, taxRates: seq<TaxRateYear>, year: int,
                 indOperFilter: int, cnpjFilter: string): (r: Option<seq<Row>>)
    requires spedData.Some? ==> |taxRates| > 0
    ensures r.None? <==> spedData.None?
    ensures r.Some? ==> |r.value| == |Filtered(spedData.value.c100, indOperFilter, cnpjFilter)|
    ensures r.Some? ==> forall k :: 0 <= k < |r.value| ==>
      r.value[k] == RowOf(Filtered(spedData.value.c100, indOperFilter, cnpjFilter)[k], SelectRate(taxRates, year))
  {
    match spedData
    case None => None
    case Some(d) =>
      var currentRate := SelectRate(taxRates, year);
      var filtered := Filtered(d.c100, indOperFilter, cnpjFilter);
      Some(seq(|filtered|, k requires 0 <= k < |filtered| => RowOf(filtered[k], currentRate)))
  }

  /**
   * `getMesAno`: "-" for text shorter than 8 characters; "MM/YYYY" from a dashed
   * "YYYY-MM-DD" (piece 1, "/", piece 0); otherwise characters 2-3, "/", characters 4-7.
   */
  function MesAno(dateStr: string): (r: string)
    ensures r == "-" <==> |dateStr| < 8
    ensures |dateStr| >= 8 && '-' !in dateStr ==> |r| == 7 && r[2] == '/'
  {
    if |dateStr| < 8 then "-"
    else if '-' in dateStr then
      SplitSeparated(dateStr, '-');
      var parts := Split(dateStr, '-');
      var shown := parts[1] + "/" + parts[0];
      assert shown[|parts[1]|] == '/';
      shown
    else dateStr[2..4] + "/" + dateStr[4..8]
  }

  /** The panel opens on outbound documents of every branch. */
  lemma InitialView(c100: seq<SpedC100>)
    ensures forall rec :: rec in Filtered(c100, DefaultDirection, DefaultBranch) <==> rec in c100 && rec.indOper == Some(1)
  {
  }

  /** An empty or short date shows as "-". */
  lemma MesAnoShort(dateStr: string)
    requires |dateStr| < 8
    ensures MesAno(dateStr) == "-"
  {
  }

  /** "DDMMYYYY" shows as the seven characters "MM/YYYY". */
  lemma MesAnoCompact(dd: string, mm: string, yyyy: string)
    requires |dd| == 2 && |mm| == 2 && |yyyy| == 4
    requires '-' !in dd + mm + yyyy
    ensures MesAno(dd + mm + yyyy) == mm + "/" + yyyy
    ensures |MesAno(dd + mm + yyyy)| == 7
  {
    var d := dd + mm + yyyy;
    assert d[2..4] == mm && d[4..8] == yyyy;
  }

  /** "YYYY-MM-DD" shows as "MM/YYYY", whatever the lengths of the dash-free pieces. */
  lemma MesAnoIso(yyyy: string, mm: string, dd: string)
    requires '-' !in yyyy && '-' !in mm && '-' !in dd
    requires |yyyy| + |mm| + |dd| >= 6
    ensures MesAno(yyyy + "-" + mm + "-" + dd) == mm + "/" + yyyy
  {
    var d := yyyy + "-" + mm + "-" + dd;
    var parts := [yyyy, mm, dd];
    assert Join(parts, '-') == d by {
      assert Join(parts[2..], '-') == dd;
      assert Join(parts[1..], '-') == mm + ['-'] + dd;
    }
    SplitJoin(parts, '-');
    assert d[|yyyy|] == '-';
  }
}
