/** The seasonality view: bookings grouped by `(month_num, arrival_date_month)`,
    counted on the `hotel` column and ordered by month number. */
module Monthly {
  import opened Wrappers
  import opened Bookings
  import opened Counting

  /** One row of the grouped result: the key and the number of non-null
      `hotel` cells in the group. */
  datatype MonthCount = MonthCount(monthNum: int, month: string, bookings: nat)

  /** Every row's `month_num` was assigned from its month name, as `load_data`
      does before the grouping runs. */
  predicate MonthDerived(t: seq<Booking>)
  {
    forall i :: 0 <= i < |t| ==> t[i].monthNum == MonthNumber(t[i].arrivalMonth)
  }

  /** The name of month `m` as the dictionary spells it. */
  function MonthName(m: int): string
    requires 1 <= m <= 12
  {
    MonthNames[m - 1]
  }

  /** Some row carries the key of month `m` (its number and its name). */
  predicate MonthOccurs(t: seq<Booking>, m: int)
  {
    1 <= m <= 12 && Count(t, MonthGroup(m, MonthName(m))) > 0
  }

  /** The result row of the group of month `m`. */
  function GroupRow(t: seq<Booking>, m: int): MonthCount
    requires 1 <= m <= 12
  {
    MonthCount(m, MonthName(m), Count(t, MonthGroupHotel(m, MonthName(m))))
  }

  /** The groups of months `k`..12, in month order. A group exists when some
      row carries its key, even if every `hotel` cell in it is null (its count
      is then 0). */
  function MonthlyFrom(t: seq<Booking>, k: int): (r: seq<MonthCount>)
    requires 1 <= k <= 13
    decreases 13 - k
    ensures |r| <= 13 - k
    ensures forall i :: 0 <= i < |r| ==> k <= r[i].monthNum <= 12
  {
    if k == 13 then []
    else if MonthOccurs(t, k) then [GroupRow(t, k)] + MonthlyFrom(t, k + 1)
    else MonthlyFrom(t, k + 1)
  }

  /** The groups of months `k`..12 come in strictly increasing month order. */
  lemma {:induction false} MonthlyFromSorted(t: seq<Booking>, k: int)
    requires 1 <= k <= 13
    decreases 13 - k
    ensures forall i, j :: 0 <= i < j < |MonthlyFrom(t, k)| ==>
              MonthlyFrom(t, k)[i].monthNum < MonthlyFrom(t, k)[j].monthNum
  {
    if k < 13 {
      MonthlyFromSorted(t, k + 1);
      var rest := MonthlyFrom(t, k + 1);
      if MonthOccurs(t, k) {
        var r := MonthlyFrom(t, k);
        assert r == [GroupRow(t, k)] + rest;
        assert forall i :: 0 < i < |r| ==> r[i] == rest[i - 1];
      }
    }
  }

  /** Each listed group is a month whose key occurs, with its count. */
  lemma {:induction false} MonthlyFromRows(t: seq<Booking>, k: int)
    requires 1 <= k <= 13
    decreases 13 - k
    ensures forall i :: 0 <= i < |MonthlyFrom(t, k)| ==>
              MonthOccurs(t, MonthlyFrom(t, k)[i].monthNum) &&
              MonthlyFrom(t, k)[i] == GroupRow(t, MonthlyFrom(t, k)[i].monthNum)
  {
    if k < 13 {
      MonthlyFromRows(t, k + 1);
      var rest := MonthlyFrom(t, k + 1);
      if MonthOccurs(t, k) {
        var r := MonthlyFrom(t, k);
        assert r == [GroupRow(t, k)] + rest;
        assert forall i :: 0 < i < |r| ==> r[i] == rest[i - 1];
      }
    }
  }

  /** A month from `k` on whose key occurs is listed. */
  lemma {:induction false} MonthlyFromComplete(t: seq<Booking>, k: int, m: int)
    requires 1 <= k <= 13 && k <= m && MonthOccurs(t, m)
    decreases 13 - k
    ensures exists i :: 0 <= i < |MonthlyFrom(t, k)| && MonthlyFrom(t, k)[i].monthNum == m
  {
    var r := MonthlyFrom(t, k);
    if m == k {
      assert r == [GroupRow(t, k)] + MonthlyFrom(t, k + 1);
      assert r[0].monthNum == m;
    } else {
      MonthlyFromComplete(t, k + 1, m);
      var rest := MonthlyFrom(t, k + 1);
      var i :| 0 <= i < |rest| && rest[i].monthNum == m;
      if MonthOccurs(t, k) {
        assert r == [GroupRow(t, k)] + rest;
        assert r[i + 1].monthNum == m;
      } else {
        assert r == rest;
        assert r[i].monthNum == m;
      }
    }
  }

  /** `df.groupby(['month_num', 'arrival_date_month'])['hotel'].count()`,
      then `sort_values('month_num')`: month numbers strictly increase (so each
      key appears once), and each count is the number of rows of that key whose
      `hotel` is not null. */
  function MonthlyCounts(t: seq<Booking>): (r: seq<MonthCount>)
    requires MonthDerived(t)
    ensures |r| <= 12
    ensures forall i, j :: 0 <= i < j < |r| ==> r[i].monthNum < r[j].monthNum
    ensures forall i :: 0 <= i < |r| ==>
              1 <= r[i].monthNum <= 12 && r[i].month == MonthNames[r[i].monthNum - 1] &&
              r[i].bookings == Count(t, MonthGroupHotel(r[i].monthNum, r[i].month))
  {
    MonthlyFromSorted(t, 1);
    MonthlyFromRows(t, 1);
    MonthlyFrom(t, 1)
  }

  /** The groups are exactly the keys that occur: `(k, name)` is listed when
      and only when some row has month number `k` and month name `name`. */
  lemma MonthlyCountsGroups(t: seq<Booking>, k: int, name: string)
    requires MonthDerived(t)
    ensures Count(t, MonthGroup(k, name)) > 0 <==>
              exists i :: 0 <= i < |MonthlyCounts(t)| &&
                MonthlyCounts(t)[i].monthNum == k && MonthlyCounts(t)[i].month == name
  {
    var r := MonthlyCounts(t);
    assert r == MonthlyFrom(t, 1);
    MonthlyFromRows(t, 1);
    CountPositive(t, MonthGroup(k, name));
    if Count(t, MonthGroup(k, name)) > 0 {
      var j :| 0 <= j < |t| && Selects(MonthGroup(k, name), t[j]);
      assert t[j].monthNum == MonthNumber(t[j].arrivalMonth);
      assert 1 <= k <= 12 && name == MonthName(k);
      assert MonthOccurs(t, k);
      MonthlyFromComplete(t, 1, k);
      var i :| 0 <= i < |r| && r[i].monthNum == k;
      assert r[i] == GroupRow(t, k);
    }
    if exists i :: 0 <= i < |r| && r[i].monthNum == k && r[i].month == name {
      var i :| 0 <= i < |r| && r[i].monthNum == k && r[i].month == name;
      assert MonthOccurs(t, k) && r[i] == GroupRow(t, k);
    }
  }

  /** Two tables with the same group sizes give the same view. */
  lemma {:induction false} MonthlyFromSameCounts(t: seq<Booking>, u: seq<Booking>, k: int)
    requires 1 <= k <= 13
    requires forall m, name :: Count(t, MonthGroup(m, name)) == Count(u, MonthGroup(m, name))
    requires forall m, name :: Count(t, MonthGroupHotel(m, name)) == Count(u, MonthGroupHotel(m, name))
    ensures MonthlyFrom(t, k) == MonthlyFrom(u, k)
    decreases 13 - k
  {
    if k < 13 {
      MonthlyFromSameCounts(t, u, k + 1);
      var name := MonthNames[k - 1];
      assert Count(t, MonthGroup(k, name)) == Count(u, MonthGroup(k, name));
      assert Count(t, MonthGroupHotel(k, name)) == Count(u, MonthGroupHotel(k, name));
    }
  }

  /** The view does not depend on the order of the rows. */
  lemma MonthlyCountsPermutation(t: seq<Booking>, u: seq<Booking>)
    requires MonthDerived(t) && multiset(t) == multiset(u)
    ensures MonthDerived(u)
    ensures MonthlyCounts(t) == MonthlyCounts(u)
  {
    forall i | 0 <= i < |u| ensures u[i].monthNum == MonthNumber(u[i].arrivalMonth) {
      assert u[i] in multiset(t);
      var j :| 0 <= j < |t| && t[j] == u[i];
    }
    forall m, name ensures Count(t, MonthGroup(m, name)) == Count(u, MonthGroup(m, name)) {
      CountPermutation(t, u, MonthGroup(m, name));
    }
    forall m, name ensures Count(t, MonthGroupHotel(m, name)) == Count(u, MonthGroupHotel(m, name)) {
      CountPermutation(t, u, MonthGroupHotel(m, name));
    }
    MonthlyFromSameCounts(t, u, 1);
  }

  /** A row whose month name is not one of the twelve (so its `month_num` is
      null) changes nothing in the view. */
  lemma MonthlyCountsIgnoresUnmapped(t: seq<Booking>, b: Booking)
    requires MonthDerived(t) && b.monthNum == MonthNumber(b.arrivalMonth) && b.monthNum.None?
    ensures MonthDerived(t + [b])
    ensures MonthlyCounts(t + [b]) == MonthlyCounts(t)
  {
    forall m, name ensures Count(t + [b], MonthGroup(m, name)) == Count(t, MonthGroup(m, name)) {
      CountAppend(t, [b], MonthGroup(m, name));
    }
    forall m, name ensures Count(t + [b], MonthGroupHotel(m, name)) == Count(t, MonthGroupHotel(m, name)) {
      CountAppend(t, [b], MonthGroupHotel(m, name));
    }
    MonthlyFromSameCounts(t + [b], t, 1);
  }
}
