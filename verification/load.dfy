/** `load_data`: the three column assignments that turn the raw table into the
    prepared one, and the single recognised failure (the data file is missing). */
module Load {
  import opened Wrappers
  import opened Bookings

  /** The one failure the dashboard recognises. */
  datatype LoadError = DataSourceMissing

  /** `children.fillna(0)` on one row. */
  function FillChildren(b: Booking): (r: Booking)
    ensures r.children.Some?
    ensures b.children.Some? ==> r.children == b.children
    ensures b.children.None? ==> r.children == Some(0)
    ensures r.(children := b.children) == b
  {
    match b.children
    case Some(_) => b
    case None => b.(children := Some(0))
  }

  /** `month_num` assigned from the month-name dictionary on one row. */
  function WithMonthNum(b: Booking): (r: Booking)
    ensures r.monthNum == MonthNumber(b.arrivalMonth)
    ensures r.(monthNum := b.monthNum) == b
  {
    b.(monthNum := MonthNumber(b.arrivalMonth))
  }

  /** `total_guests = adults + children + babies` assigned on one row. */
  function WithTotalGuests(b: Booking): (r: Booking)
    ensures r.totalGuests == GuestTotal(b.adults, b.children, b.babies)
    ensures r.(totalGuests := b.totalGuests) == b
  {
    b.(totalGuests := GuestTotal(b.adults, b.children, b.babies))
  }

  /** What `load_data` does to one row, in the order of its three assignments. */
  function Prepare(b: Booking): (r: Booking)
    ensures r.children.Some?
    ensures r.children == (if b.children.None? then Some(0) else b.children)
    ensures r.monthNum == MonthNumber(b.arrivalMonth)
    ensures r.totalGuests == GuestTotal(b.adults, r.children, b.babies)
    ensures b.adults.Some? && b.babies.Some? ==>
              r.totalGuests == Some(b.adults.value + r.children.value + b.babies.value)
    ensures r.statusText == b.statusText
    ensures r.(children := b.children, monthNum := None, totalGuests := None)
              == b.(monthNum := None, totalGuests := None)
  {
    WithTotalGuests(WithMonthNum(FillChildren(b)))
  }

  /** The invariant every prepared row satisfies: `month_num` agrees with the
      month name, `children` is never null and `total_guests` is the
      null-propagating sum of the three guest columns. */
  predicate IsPrepared(b: Booking)
  {
    b.monthNum == MonthNumber(b.arrivalMonth) && b.children.Some? &&
    b.totalGuests == GuestTotal(b.adults, b.children, b.babies)
  }

  lemma PrepareEstablishes(b: Booking)
    ensures IsPrepared(Prepare(b))
  {
  }

  /** Preparing a prepared row changes nothing: a second `load_data` pass over
      its own output gives the same table. */
  lemma PrepareIdempotent(b: Booking)
    ensures Prepare(Prepare(b)) == Prepare(b)
  {
  }

  /** `load_data` on a whole table, row by row. */
  function PrepareAll(rows: seq<Booking>): (t: seq<Booking>)
    ensures |t| == |rows|
    ensures forall i :: 0 <= i < |rows| ==> t[i] == Prepare(rows[i])
  {
    if rows == [] then [] else [Prepare(rows[0])] + PrepareAll(rows[1..])
  }

  /** `df['children'] = df['children'].fillna(0)`, assigned in place. */
  method FillChildrenColumn(a: array<Booking>)
    modifies a
    ensures forall i :: 0 <= i < a.Length ==> a[i] == FillChildren(old(a[i]))
  {
    for i := 0 to a.Length
      invariant forall j :: 0 <= j < i ==> a[j] == FillChildren(old(a[j]))
      invariant forall j :: i <= j < a.Length ==> a[j] == old(a[j])
    {
      a[i] := FillChildren(a[i]);
    }
  }

  /** `df['month_num'] = df['arrival_date_month'].map(month_map)`, in place. */
  method AddMonthNumColumn(a: array<Booking>)
    modifies a
    ensures forall i :: 0 <= i < a.Length ==> a[i] == WithMonthNum(old(a[i]))
  {
    for i := 0 to a.Length
      invariant forall j :: 0 <= j < i ==> a[j] == WithMonthNum(old(a[j]))
      invariant forall j :: i <= j < a.Length ==> a[j] == old(a[j])
    {
      a[i] := WithMonthNum(a[i]);
    }
  }

  /** `df['total_guests'] = df['adults'] + df['children'] + df['babies']`, in place. */
  method AddTotalGuestsColumn(a: array<Booking>)
    modifies a
    ensures forall i :: 0 <= i < a.Length ==> a[i] == WithTotalGuests(old(a[i]))
  {
    for i := 0 to a.Length
      invariant forall j :: 0 <= j < i ==> a[j] == WithTotalGuests(old(a[j]))
      invariant forall j :: i <= j < a.Length ==> a[j] == old(a[j])
    {
      a[i] := WithTotalGuests(a[i]);
    }
  }

  /** `load_data`. The data file is an input: `None` when it does not exist,
      otherwise the rows it holds. A missing file is reported as
      `DataSourceMissing`; otherwise the three columns are assigned one after
      the other on a fresh table. */
  method LoadData(source: Option<seq<Booking>>) returns (r: Result<seq<Booking>, LoadError>)
    ensures source.None? <==> r.Failure?
    ensures r.Failure? ==> r.error == DataSourceMissing
    ensures source.Some? ==> r.value == PrepareAll(source.value)
  {
    if source.None? {
      return Failure(DataSourceMissing);
    }
    var rows := source.value;
    var df := new Booking[|rows|](i requires 0 <= i < |rows| => rows[i]);
    FillChildrenColumn(df);
    AddMonthNumColumn(df);
    AddTotalGuestsColumn(df);
    return Success(df[..]);
  }
}
