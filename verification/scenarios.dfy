/** Concrete tables for the behaviours the dashboard is expected to show. */
module Scenarios {
  import opened Wrappers
  import opened Bookings
  import opened Counting
  import opened Load
  import opened Metrics
  import opened Views

  /** A booking with the given hotel, cancellation flag, guests and rate; the
      other columns are fixed. */
  function Sample(hotel: string, isCanceled: int, adults: Option<int>, children: Option<int>,
                  babies: Option<int>, adr: Option<real>): Booking
  {
    Booking(Some(hotel), isCanceled, 2016, Some("July"), adults, children, babies, 1, 2, adr,
            Some("Direct"), Some("PRT"), Some("A"), 10, None, None, None)
  }

  /** Three bookings, one cancelled: three bookings in total and a
      cancellation rate of one third of 100 %. */
  lemma ThreeBookingsOneCanceled()
    ensures var t := [Sample("A", 0, Some(2), Some(0), Some(0), Some(80.0)),
                      Sample("A", 1, Some(2), Some(0), Some(0), Some(80.0)),
                      Sample("B", 0, Some(2), Some(0), Some(0), Some(80.0))];
            |t| == 3 && CancellationRate(t) == Some(100.0 / 3.0)
  {
    var t := [Sample("A", 0, Some(2), Some(0), Some(0), Some(80.0)),
              Sample("A", 1, Some(2), Some(0), Some(0), Some(80.0)),
              Sample("B", 0, Some(2), Some(0), Some(0), Some(80.0))];
    CancellationRateIsShare(t);
    assert Count(t, Canceled) == 1;
  }

  /** Two adults, a null child count and one baby make three guests. */
  lemma NullChildrenCountAsZero()
    ensures Prepare(Sample("A", 0, Some(2), None, Some(1), None)).totalGuests == Some(3)
  {
  }

  /** Rates 50, 600 and 200: the price view keeps the rows with 50 and 200. */
  lemma OutlierDropped()
    ensures var t := [Sample("A", 0, Some(1), Some(0), Some(0), Some(50.0)),
                      Sample("A", 0, Some(1), Some(0), Some(0), Some(600.0)),
                      Sample("A", 0, Some(1), Some(0), Some(0), Some(200.0))];
            FilterAdr(t) == [t[0], t[2]]
  {
  }

  /** A month name in another case is not in the dictionary. */
  lemma LowerCaseMonthUnmapped()
    ensures MonthNumber(Some("january")) == None && MonthNumber(Some("January")) == Some(1)
  {
  }
}
