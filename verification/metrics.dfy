/** The four summary figures (KPIs) of the dashboard. Means are taken over
    `real`s and skip null cells, as a dataframe mean does; the mean of nothing
    is null (NaN). */
module Metrics {
  import opened Wrappers
  import opened Bookings
  import opened Counting

  function Sum(xs: seq<real>): real
  {
    if xs == [] then 0.0 else xs[0] + Sum(xs[1..])
  }

  /** Arithmetic mean; null for an empty column. */
  function Mean(xs: seq<real>): (m: Option<real>)
    ensures m.None? <==> xs == []
    ensures m.Some? ==> m.value * (|xs| as real) == Sum(xs)
  {
    if xs == [] then None else Some(Sum(xs) / (|xs| as real))
  }

  lemma {:induction false} SumAtLeast(xs: seq<real>, lo: real)
    requires forall i :: 0 <= i < |xs| ==> lo <= xs[i]
    ensures (|xs| as real) * lo <= Sum(xs)
  {
    if xs != [] {
      SumAtLeast(xs[1..], lo);
      assert (|xs| as real) * lo == lo + (|xs[1..]| as real) * lo;
    }
  }

  lemma {:induction false} SumAtMost(xs: seq<real>, hi: real)
    requires forall i :: 0 <= i < |xs| ==> xs[i] <= hi
    ensures Sum(xs) <= (|xs| as real) * hi
  {
    if xs != [] {
      SumAtMost(xs[1..], hi);
      assert (|xs| as real) * hi == hi + (|xs[1..]| as real) * hi;
    }
  }

  lemma QuotientAtLeast(s: real, n: real, lo: real)
    requires n > 0.0 && n * lo <= s
    ensures lo <= s / n
  {
  }

  lemma QuotientAtMost(s: real, n: real, hi: real)
    requires n > 0.0 && s <= n * hi
    ensures s / n <= hi
  {
  }

  /** A mean is no smaller than a lower bound of the values it averages. */
  lemma MeanAtLeast(xs: seq<real>, lo: real)
    requires forall i :: 0 <= i < |xs| ==> lo <= xs[i]
    ensures Mean(xs).Some? ==> lo <= Mean(xs).value
  {
    if xs != [] {
      SumAtLeast(xs, lo);
      QuotientAtLeast(Sum(xs), |xs| as real, lo);
    }
  }

  /** A mean is no larger than an upper bound of the values it averages. */
  lemma MeanAtMost(xs: seq<real>, hi: real)
    requires forall i :: 0 <= i < |xs| ==> xs[i] <= hi
    ensures Mean(xs).Some? ==> Mean(xs).value <= hi
  {
    if xs != [] {
      SumAtMost(xs, hi);
      QuotientAtMost(Sum(xs), |xs| as real, hi);
    }
  }

  /** The `is_canceled` column as numbers. */
  function CanceledColumn(t: seq<Booking>): (xs: seq<real>)
    ensures |xs| == |t|
  {
    if t == [] then [] else [t[0].isCanceled as real] + CanceledColumn(t[1..])
  }

  /** The non-null `adr` cells, in row order. */
  function AdrColumn(t: seq<Booking>): (xs: seq<real>)
    ensures |xs| <= |t|
    ensures xs == [] <==> forall i :: 0 <= i < |t| ==> t[i].adr.None?
    ensures forall x :: x in xs <==> exists i :: 0 <= i < |t| && t[i].adr == Some(x)
  {
    if t == [] then []
    else (if t[0].adr.Some? then [t[0].adr.value] else []) + AdrColumn(t[1..])
  }

  /** Each rate occurs in the column as often as there are rows with that
      rate, so the mean weighs every row with a rate once. */
  lemma {:induction false} AdrColumnMultiplicity(t: seq<Booking>, x: real)
    ensures multiset(AdrColumn(t))[x] == Count(t, RateIs(x))
  {
    if t != [] {
      AdrColumnMultiplicity(t[1..], x);
    }
  }

  /** `stays_in_weekend_nights + stays_in_week_nights` per row. */
  function StayColumn(t: seq<Booking>): (xs: seq<real>)
    ensures |xs| == |t|
  {
    if t == [] then [] else [(t[0].weekendNights + t[0].weekNights) as real] + StayColumn(t[1..])
  }

  /** `is_canceled.mean() * 100`; null (NaN) for an empty table. */
  function CancellationRate(t: seq<Booking>): (rate: Option<real>)
    ensures rate.None? <==> t == []
  {
    match Mean(CanceledColumn(t))
    case None => None
    case Some(m) => Some(m * 100.0)
  }

  /** `adr.mean()`: nulls are skipped; null when no row has a rate. */
  function AverageAdr(t: seq<Booking>): (avg: Option<real>)
    ensures avg.None? <==> forall i :: 0 <= i < |t| ==> t[i].adr.None?
  {
    Mean(AdrColumn(t))
  }

  /** `(stays_in_weekend_nights + stays_in_week_nights).mean()`. */
  function AverageStayNights(t: seq<Booking>): (avg: Option<real>)
    ensures avg.None? <==> t == []
  {
    Mean(StayColumn(t))
  }

  predicate CanceledFlagsBinary(t: seq<Booking>)
  {
    forall i :: 0 <= i < |t| ==> t[i].isCanceled == 0 || t[i].isCanceled == 1
  }

  lemma {:induction false} CanceledSumIsCount(t: seq<Booking>)
    requires CanceledFlagsBinary(t)
    ensures Sum(CanceledColumn(t)) == Count(t, Canceled) as real
  {
    if t != [] {
      assert CanceledFlagsBinary(t[1..]) by {
        forall i | 0 <= i < |t[1..]| ensures t[1..][i].isCanceled == 0 || t[1..][i].isCanceled == 1 {
          assert t[1..][i] == t[i + 1];
        }
      }
      CanceledSumIsCount(t[1..]);
      assert CanceledColumn(t)[1..] == CanceledColumn(t[1..]);
    }
  }

  /** `part` out of `whole`, as a percentage. */
  function Percent(part: nat, whole: nat): real
    requires whole > 0
  {
    100.0 * (part as real / whole as real)
  }

  lemma PercentWithin(part: nat, whole: nat)
    requires 0 < whole && part <= whole
    ensures 0.0 <= Percent(part, whole) <= 100.0
  {
  }

  /** The rate is the flag sum as a percentage of the row count. */
  lemma RateOfFlagSum(t: seq<Booking>, k: nat)
    requires t != [] && Sum(CanceledColumn(t)) == k as real
    ensures CancellationRate(t) == Some(Percent(k, |t|))
  {
    assert Mean(CanceledColumn(t)) == Some(k as real / |t| as real);
  }

  /** On a non-empty table whose flags are all 0 or 1, the cancellation rate is
      the percentage of cancelled rows, and so lies between 0 and 100. */
  lemma CancellationRateIsShare(t: seq<Booking>)
    requires t != [] && CanceledFlagsBinary(t)
    ensures CancellationRate(t) == Some(Percent(Count(t, Canceled), |t|))
    ensures 0.0 <= CancellationRate(t).value <= 100.0
  {
    CanceledSumIsCount(t);
    RateOfFlagSum(t, Count(t, Canceled));
    PercentWithin(Count(t, Canceled), |t|);
  }

  /** The average rate lies within any bounds of the non-null rates. */
  lemma AverageAdrWithin(t: seq<Booking>, lo: real, hi: real)
    requires forall i :: 0 <= i < |t| && t[i].adr.Some? ==> lo <= t[i].adr.value <= hi
    ensures AverageAdr(t).Some? ==> lo <= AverageAdr(t).value <= hi
  {
    AdrColumnWithin(t, lo, hi);
    MeanAtLeast(AdrColumn(t), lo);
    MeanAtMost(AdrColumn(t), hi);
  }

  lemma {:induction false} AdrColumnWithin(t: seq<Booking>, lo: real, hi: real)
    requires forall i :: 0 <= i < |t| && t[i].adr.Some? ==> lo <= t[i].adr.value <= hi
    ensures forall i :: 0 <= i < |AdrColumn(t)| ==> lo <= AdrColumn(t)[i] <= hi
  {
    if t != [] {
      assert forall i :: 0 <= i < |t[1..]| ==> t[1..][i] == t[i + 1];
      AdrColumnWithin(t[1..], lo, hi);
    }
  }

  lemma {:induction false} StayColumnNonNegative(t: seq<Booking>)
    requires forall i :: 0 <= i < |t| ==> t[i].weekendNights >= 0 && t[i].weekNights >= 0
    ensures forall i :: 0 <= i < |StayColumn(t)| ==> StayColumn(t)[i] >= 0.0
  {
    if t != [] {
      assert forall i :: 0 <= i < |t[1..]| ==> t[1..][i] == t[i + 1];
      StayColumnNonNegative(t[1..]);
    }
  }

  /** With non-negative night counts the average stay is non-negative. */
  lemma AverageStayNonNegative(t: seq<Booking>)
    requires forall i :: 0 <= i < |t| ==> t[i].weekendNights >= 0 && t[i].weekNights >= 0
    ensures AverageStayNights(t).Some? ==> AverageStayNights(t).value >= 0.0
  {
    StayColumnNonNegative(t);
    MeanAtLeast(StayColumn(t), 0.0);
  }
}
