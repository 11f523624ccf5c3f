/** Row counting over a table, the building block of every aggregation the
    dashboard shows (group sizes, value counts, the cancelled share). A
    `Selector` names the rows to count, so that the counts of two tables can
    be compared by first-order lemmas. */
module Counting {
  import opened Wrappers
  import opened Bookings

  /** The row sets the dashboard counts. */
  datatype Selector =
    | Canceled                                  // is_canceled == 1
    | MonthGroup(num: int, name: string)        // group key (month_num, arrival_date_month)
    | MonthGroupHotel(num: int, name: string)   // same key, non-null `hotel`
    | FromCountry(country: string)              // country == the given value
    | RateIs(rate: real)                        // adr == the given value

  predicate Selects(s: Selector, b: Booking)
  {
    match s
    case Canceled => b.isCanceled == 1
    case MonthGroup(k, m) => b.monthNum == Some(k) && b.arrivalMonth == Some(m)
    case MonthGroupHotel(k, m) => b.monthNum == Some(k) && b.arrivalMonth == Some(m) && b.hotel.Some?
    case FromCountry(c) => b.country == Some(c)
    case RateIs(x) => b.adr == Some(x)
  }

  /** Number of rows of `t` that `s` selects. */
  function Count(t: seq<Booking>, s: Selector): (n: nat)
    ensures n <= |t|
  {
    if t == [] then 0 else (if Selects(s, t[0]) then 1 else 0) + Count(t[1..], s)
  }

  lemma {:induction false} CountAppend(a: seq<Booking>, b: seq<Booking>, s: Selector)
    ensures Count(a + b, s) == Count(a, s) + Count(b, s)
  {
    if a == [] {
      assert a + b == b;
    } else {
      assert (a + b)[1..] == a[1..] + b;
      CountAppend(a[1..], b, s);
    }
  }

  /** A count is positive exactly when some row is selected. */
  lemma {:induction false} CountPositive(t: seq<Booking>, s: Selector)
    ensures Count(t, s) > 0 <==> exists i :: 0 <= i < |t| && Selects(s, t[i])
  {
    if t != [] {
      CountPositive(t[1..], s);
      if exists i :: 0 <= i < |t| && Selects(s, t[i]) {
        var i :| 0 <= i < |t| && Selects(s, t[i]);
        if i > 0 {
          assert Selects(s, t[1..][i - 1]);
        }
      }
      if exists i :: 0 <= i < |t[1..]| && Selects(s, t[1..][i]) {
        var i :| 0 <= i < |t[1..]| && Selects(s, t[1..][i]);
        assert Selects(s, t[i + 1]);
      }
    }
  }

  /** Matches the first row of `t` with an equal row of `u` and removes both:
      what is left of the two tables is still one multiset. */
  lemma MatchFirst(t: seq<Booking>, u: seq<Booking>) returns (j: int)
    requires t != [] && multiset(t) == multiset(u)
    ensures 0 <= j < |u| && u[j] == t[0]
    ensures multiset(t[1..]) == multiset(u[..j] + u[j + 1..])
  {
    assert t[0] in multiset(u);
    j :| 0 <= j < |u| && u[j] == t[0];
    assert u == u[..j] + [u[j]] + u[j + 1..];
    assert multiset(u) == multiset(u[..j] + u[j + 1..]) + multiset{u[j]};
    assert t == [t[0]] + t[1..];
    assert multiset(t) == multiset(t[1..]) + multiset{t[0]};
    assert multiset(t[1..]) == multiset(t) - multiset{t[0]};
    assert multiset(u[..j] + u[j + 1..]) == multiset(u) - multiset{u[j]};
  }

  /** Dropping the row at index `j` lowers the count by that row's share. */
  lemma CountRemoveAt(u: seq<Booking>, j: int, s: Selector)
    requires 0 <= j < |u|
    ensures Count(u, s) == Count(u[..j] + u[j + 1..], s) + (if Selects(s, u[j]) then 1 else 0)
  {
    assert u == u[..j] + ([u[j]] + u[j + 1..]);
    CountAppend(u[..j], [u[j]] + u[j + 1..], s);
    CountAppend(u[..j], u[j + 1..], s);
    assert ([u[j]] + u[j + 1..])[1..] == u[j + 1..];
  }

  /** Counts depend only on the multiset of rows, not on their order. */
  lemma {:induction false} CountPermutation(t: seq<Booking>, u: seq<Booking>, s: Selector)
    requires multiset(t) == multiset(u)
    ensures Count(t, s) == Count(u, s)
  {
    if t == [] {
      assert |u| == |multiset(u)| == 0;
    } else {
      var j := MatchFirst(t, u);
      CountPermutation(t[1..], u[..j] + u[j + 1..], s);
      CountRemoveAt(u, j, s);
    }
  }
}
