/** The dashboard script as a whole: load the table (or stop), compute the
    KPIs, add the status label column, and derive the chart and table inputs. */
module Dashboard {
  import opened Wrappers
  import opened Bookings
  import opened Load
  import opened Metrics
  import opened Monthly
  import opened Countries
  import opened Views

  /** `df['status_text'] = df['is_canceled'].map({...})` on one row. */
  function WithStatusText(b: Booking): (r: Booking)
    ensures r.statusText == StatusLabel(b.isCanceled)
    ensures r.(statusText := b.statusText) == b
  {
    b.(statusText := StatusLabel(b.isCanceled))
  }

  function WithStatusTextAll(t: seq<Booking>): (r: seq<Booking>)
    ensures |r| == |t|
    ensures forall i :: 0 <= i < |t| ==> r[i] == WithStatusText(t[i])
  {
    if t == [] then [] else [WithStatusText(t[0])] + WithStatusTextAll(t[1..])
  }

  /** The status label column, assigned in place. */
  method AddStatusTextColumn(a: array<Booking>)
    modifies a
    ensures forall i :: 0 <= i < a.Length ==> a[i] == WithStatusText(old(a[i]))
  {
    for i := 0 to a.Length
      invariant forall j :: 0 <= j < i ==> a[j] == WithStatusText(old(a[j]))
      invariant forall j :: i <= j < a.Length ==> a[j] == old(a[j])
    {
      a[i] := WithStatusText(a[i]);
    }
  }

  /** Everything the page shows that is computed from the table. */
  datatype Report = Report(
    totalBookings: nat,
    cancellationRate: Option<real>,
    averageAdr: Option<real>,
    averageStayNights: Option<real>,
    table: seq<Booking>,
    monthly: seq<MonthCount>,
    topCountries: seq<CountryCount>,
    filteredAdr: seq<Booking>,
    preview: seq<PreviewRow>)

  /** The script from top to bottom. A missing data file stops it before
      anything is computed; otherwise the report is built from the prepared
      table, with the status label column added before the charts. */
  method RunDashboard(source: Option<seq<Booking>>) returns (r: Result<Report, LoadError>)
    ensures source.None? <==> r.Failure?
    ensures r.Failure? ==> r.error == DataSourceMissing
    ensures source.Some? ==>
              var prepared := PrepareAll(source.value);
              r.value.totalBookings == |source.value| &&
              r.value.cancellationRate == CancellationRate(prepared) &&
              r.value.averageAdr == AverageAdr(prepared) &&
              r.value.averageStayNights == AverageStayNights(prepared) &&
              r.value.table == WithStatusTextAll(prepared) &&
              MonthDerived(r.value.table) &&
              r.value.monthly == MonthlyCounts(r.value.table) &&
              r.value.topCountries == TopCountries(r.value.table) &&
              r.value.filteredAdr == FilterAdr(r.value.table) &&
              r.value.preview == Preview(r.value.table)
  {
    var loaded := LoadData(source);
    if loaded.Failure? {
      return Failure(loaded.error);
    }
    var df := loaded.value;
    var totalBookings := |df|;
    var cancellationRate := CancellationRate(df);
    var averageAdr := AverageAdr(df);
    var averageStayNights := AverageStayNights(df);
    var frame := new Booking[|df|](i requires 0 <= i < |df| => df[i]);
    AddStatusTextColumn(frame);
    var table := frame[..];
    assert table == WithStatusTextAll(df);
    assert MonthDerived(table) by {
      forall i | 0 <= i < |table| ensures table[i].monthNum == MonthNumber(table[i].arrivalMonth) {
        PrepareEstablishes(source.value[i]);
      }
    }
    var report := Report(
      totalBookings, cancellationRate, averageAdr, averageStayNights, table,
      MonthlyCounts(table), TopCountries(table), FilterAdr(table), Preview(table));
    return Success(report);
  }
}
