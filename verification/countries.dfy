/** The origin-country view: `country.value_counts().head(10)`. Null countries
    are not counted; the distinct countries are counted, ranked by count from
    high to low and the first ten kept. Among equal counts the ranking keeps
    the order in which the countries first appear in the table. */
module Countries {
  import opened Wrappers
  import opened Bookings
  import opened Counting

  datatype CountryCount = CountryCount(country: string, count: nat)

  const TopN: nat := 10

  /** Some row of `t` has country `c`. */
  predicate HasCountry(t: seq<Booking>, c: string)
  {
    exists i :: 0 <= i < |t| && t[i].country == Some(c)
  }

  /** The distinct non-null countries of `t`, in order of first appearance. */
  function CountriesInOrder(t: seq<Booking>): (cs: seq<string>)
    ensures forall i, j :: 0 <= i < j < |cs| ==> cs[i] != cs[j]
    ensures forall c :: c in cs <==> HasCountry(t, c)
  {
    if t == [] then []
    else
      var front := t[..|t| - 1];
      var last := t[|t| - 1];
      var seen := CountriesInOrder(front);
      assert forall i :: 0 <= i < |front| ==> front[i] == t[i];
      assert forall c :: HasCountry(t, c) <==> HasCountry(front, c) || last.country == Some(c);
      if last.country.Some? && last.country.value !in seen then seen + [last.country.value] else seen
  }

  /** A row of the count table is right for `t`: its count is the number of
      rows with that country, and it is positive. */
  predicate Tallied(t: seq<Booking>, p: CountryCount)
  {
    p.count == Count(t, FromCountry(p.country)) && p.count > 0
  }

  predicate CountriesDistinct(ps: seq<CountryCount>)
  {
    forall i, j :: 0 <= i < j < |ps| ==> ps[i].country != ps[j].country
  }

  /** Counts of the given countries, in the given order. */
  function Tally(t: seq<Booking>, cs: seq<string>): (ps: seq<CountryCount>)
    requires forall c :: c in cs ==> HasCountry(t, c)
    ensures |ps| == |cs|
    ensures forall i :: 0 <= i < |ps| ==> ps[i].country == cs[i] && Tallied(t, ps[i])
  {
    if cs == [] then []
    else
      assert cs[0] in cs;
      HasCountryIffCounted(t, cs[0]);
      var rest := Tally(t, cs[1..]);
      var ps := [CountryCount(cs[0], Count(t, FromCountry(cs[0])))] + rest;
      assert forall i :: 0 < i < |ps| ==> ps[i] == rest[i - 1] && cs[i] == cs[1..][i - 1];
      ps
  }

  /** Counts never increase along the sequence. */
  predicate RankedByCount(ps: seq<CountryCount>)
  {
    forall i, j :: 0 <= i < j < |ps| ==> ps[i].count >= ps[j].count
  }

  /** Inserts `x` before the first entry whose count is not larger, so that
      `x` stays ahead of the equal entries that follow it. */
  function InsertRanked(x: CountryCount, s: seq<CountryCount>): (r: seq<CountryCount>)
    ensures |r| == |s| + 1
    ensures multiset(r) == multiset(s) + multiset{x}
  {
    if s == [] || s[0].count <= x.count then [x] + s
    else
      assert s == [s[0]] + s[1..];
      [s[0]] + InsertRanked(x, s[1..])
  }

  lemma InsertRankedFrom(x: CountryCount, s: seq<CountryCount>, y: CountryCount)
    requires y in InsertRanked(x, s)
    ensures y == x || y in s
  {
    assert y in multiset(InsertRanked(x, s));
  }

  lemma {:induction false} InsertRankedKeepsRanked(x: CountryCount, s: seq<CountryCount>)
    requires RankedByCount(s)
    ensures RankedByCount(InsertRanked(x, s))
  {
    if s != [] && s[0].count > x.count {
      var rest := InsertRanked(x, s[1..]);
      InsertRankedKeepsRanked(x, s[1..]);
      var r := InsertRanked(x, s);
      assert r == [s[0]] + rest;
      forall j | 0 < j < |r| ensures r[0].count >= r[j].count {
        assert r[j] == rest[j - 1];
        InsertRankedFrom(x, s[1..], rest[j - 1]);
      }
    }
  }

  lemma {:induction false} InsertRankedKeepsDistinct(x: CountryCount, s: seq<CountryCount>)
    requires CountriesDistinct(s) && forall y :: y in s ==> y.country != x.country
    ensures CountriesDistinct(InsertRanked(x, s))
  {
    if s != [] && s[0].count > x.count {
      var rest := InsertRanked(x, s[1..]);
      InsertRankedKeepsDistinct(x, s[1..]);
      var r := InsertRanked(x, s);
      assert r == [s[0]] + rest;
      forall j | 0 < j < |r| ensures r[0].country != r[j].country {
        assert r[j] == rest[j - 1];
        InsertRankedFrom(x, s[1..], rest[j - 1]);
      }
    }
  }

  /** Insertion sort by descending count; stable. */
  function SortRanked(ps: seq<CountryCount>): (r: seq<CountryCount>)
    ensures |r| == |ps|
    ensures multiset(r) == multiset(ps)
  {
    if ps == [] then []
    else
      assert ps == [ps[0]] + ps[1..];
      InsertRanked(ps[0], SortRanked(ps[1..]))
  }

  /** The sort orders by count and keeps distinct countries distinct. */
  lemma {:induction false} SortRankedOrders(ps: seq<CountryCount>)
    ensures RankedByCount(SortRanked(ps))
    ensures CountriesDistinct(ps) ==> CountriesDistinct(SortRanked(ps))
  {
    if ps != [] {
      var rest := SortRanked(ps[1..]);
      SortRankedOrders(ps[1..]);
      InsertRankedKeepsRanked(ps[0], rest);
      if CountriesDistinct(ps) {
        forall y | y in rest ensures y.country != ps[0].country {
          assert y in multiset(rest);
          var k :| 0 <= k < |ps[1..]| && ps[1..][k] == y;
          assert ps[k + 1] == y;
        }
        InsertRankedKeepsDistinct(ps[0], rest);
      }
    }
  }

  /** `country.value_counts()`: every country with its count, highest first. */
  function ValueCounts(t: seq<Booking>): (ps: seq<CountryCount>)
  {
    SortRanked(Tally(t, CountriesInOrder(t)))
  }

  /** The full value counts: ranked, one entry per country that occurs, each
      with its number of rows. */
  lemma ValueCountsRanked(t: seq<Booking>)
    ensures RankedByCount(ValueCounts(t))
    ensures CountriesDistinct(ValueCounts(t))
    ensures forall i :: 0 <= i < |ValueCounts(t)| ==> Tallied(t, ValueCounts(t)[i])
    ensures forall c :: HasCountry(t, c) ==> exists i :: 0 <= i < |ValueCounts(t)| && ValueCounts(t)[i].country == c
  {
    var cs := CountriesInOrder(t);
    var tally := Tally(t, cs);
    var ps := ValueCounts(t);
    SortRankedOrders(tally);
    forall i | 0 <= i < |ps| ensures Tallied(t, ps[i]) {
      assert ps[i] in multiset(tally);
    }
    forall c | HasCountry(t, c) ensures exists i :: 0 <= i < |ps| && ps[i].country == c {
      var k :| 0 <= k < |cs| && cs[k] == c;
      assert tally[k] in multiset(ps);
      var i :| 0 <= i < |ps| && ps[i] == tally[k];
    }
  }

  /** `value_counts().head(10)`. */
  function TopCountries(t: seq<Booking>): (r: seq<CountryCount>)
    ensures |r| <= TopN
  {
    var ps := ValueCounts(t);
    if |ps| <= TopN then ps else ps[..TopN]
  }

  /** The top-ten list is right: at most ten distinct countries, counts
      non-increasing, each count the number of rows of that country, and every
      country left out has no more rows than the last one listed (so fewer
      than ten entries means every country is listed). */
  lemma TopCountriesRanked(t: seq<Booking>, c: string)
    ensures RankedByCount(TopCountries(t)) && CountriesDistinct(TopCountries(t))
    ensures |TopCountries(t)| == if |CountriesInOrder(t)| < TopN then |CountriesInOrder(t)| else TopN
    ensures forall i :: 0 <= i < |TopCountries(t)| ==>
              TopCountries(t)[i].count == Count(t, FromCountry(TopCountries(t)[i].country)) &&
              TopCountries(t)[i].count > 0
    ensures HasCountry(t, c) && (forall i :: 0 <= i < |TopCountries(t)| ==> TopCountries(t)[i].country != c) ==>
              |TopCountries(t)| == TopN && Count(t, FromCountry(c)) <= TopCountries(t)[TopN - 1].count
  {
    var ps := ValueCounts(t);
    ValueCountsRanked(t);
    var r := TopCountries(t);
    assert forall i :: 0 <= i < |r| ==> r[i] == ps[i];
    if HasCountry(t, c) && (forall i :: 0 <= i < |r| ==> r[i].country != c) {
      var j :| 0 <= j < |ps| && ps[j].country == c;
      assert j >= |r|;
      assert ps[TopN - 1].count >= ps[j].count;
    }
  }

  /** A country that appears in the table has a positive count, and the other
      way round. */
  lemma HasCountryIffCounted(t: seq<Booking>, c: string)
    ensures HasCountry(t, c) <==> Count(t, FromCountry(c)) > 0
  {
    CountPositive(t, FromCountry(c));
    if HasCountry(t, c) {
      var j :| 0 <= j < |t| && t[j].country == Some(c);
      assert Selects(FromCountry(c), t[j]);
    }
  }
}
