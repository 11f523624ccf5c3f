/** Two row-level views of the prepared table: the price-outlier filter that
    feeds the rate box plot, and the 100-row, nine-column preview. */
module Views {
  import opened Wrappers
  import opened Bookings

  /** Rates at or above this value are left out of the price chart. */
  const AdrCutoff: real := 500.0

  /** `df['adr'] < 500`: a null rate compares false, so its row is dropped. */
  predicate BelowCutoff(b: Booking)
  {
    b.adr.Some? && b.adr.value < AdrCutoff
  }

  /** `a` occurs in `b` in order, possibly with gaps. */
  predicate IsSubsequence(a: seq<Booking>, b: seq<Booking>)
    decreases |b|
  {
    if a == [] then true
    else if b == [] then false
    else if a[0] == b[0] then IsSubsequence(a[1..], b[1..])
    else IsSubsequence(a, b[1..])
  }

  /** `df[df['adr'] < 500]`: the rows below the cutoff, in their original
      order and with their multiplicities. */
  function FilterAdr(t: seq<Booking>): (r: seq<Booking>)
    ensures IsSubsequence(r, t)
    ensures forall i :: 0 <= i < |r| ==> BelowCutoff(r[i])
    ensures forall b :: multiset(r)[b] == if BelowCutoff(b) then multiset(t)[b] else 0
  {
    if t == [] then []
    else
      var rest := FilterAdr(t[1..]);
      assert t == [t[0]] + t[1..];
      if BelowCutoff(t[0]) then [t[0]] + rest else rest
  }

  /** A row is kept exactly when it is in the table and below the cutoff. */
  lemma FilterAdrMembership(t: seq<Booking>, b: Booking)
    ensures b in FilterAdr(t) <==> b in t && BelowCutoff(b)
  {
    assert b in FilterAdr(t) <==> b in multiset(FilterAdr(t));
    assert b in t <==> b in multiset(t);
  }

  /** Filtering a table whose rows are all below the cutoff keeps it whole. */
  lemma {:induction false} FilterAdrKeepsAll(t: seq<Booking>)
    requires forall i :: 0 <= i < |t| ==> BelowCutoff(t[i])
    ensures FilterAdr(t) == t
  {
    if t != [] {
      FilterAdrKeepsAll(t[1..]);
    }
  }

  /** The filter is idempotent. */
  lemma FilterAdrIdempotent(t: seq<Booking>)
    ensures FilterAdr(FilterAdr(t)) == FilterAdr(t)
  {
    FilterAdrKeepsAll(FilterAdr(t));
  }

  /** The nine columns of the preview table, in the order they are shown. */
  datatype PreviewRow = PreviewRow(
    hotel: Option<string>,
    arrivalYear: int,
    arrivalMonth: Option<string>,
    isCanceled: int,
    leadTime: int,
    adr: Option<real>,
    marketSegment: Option<string>,
    country: Option<string>,
    totalGuests: Option<int>)

  const PreviewLength: nat := 100

  /** `df[cols_to_show]` on one row. */
  function Project(b: Booking): PreviewRow
  {
    PreviewRow(b.hotel, b.arrivalYear, b.arrivalMonth, b.isCanceled, b.leadTime,
               b.adr, b.marketSegment, b.country, b.totalGuests)
  }

  function ProjectAll(t: seq<Booking>): (r: seq<PreviewRow>)
    ensures |r| == |t|
    ensures forall i :: 0 <= i < |t| ==> r[i] == Project(t[i])
  {
    if t == [] then [] else [Project(t[0])] + ProjectAll(t[1..])
  }

  /** `df[cols_to_show].head(100)`: the first 100 rows (all of them when there
      are fewer), each cut down to the nine preview columns. */
  function Preview(t: seq<Booking>): (r: seq<PreviewRow>)
    ensures |r| <= PreviewLength
    ensures |r| == if |t| < PreviewLength then |t| else PreviewLength
    ensures forall i :: 0 <= i < |r| ==> r[i] == Project(t[i])
  {
    ProjectAll(if |t| < PreviewLength then t else t[..PreviewLength])
  }

  /** Rows after the first hundred never reach the preview. */
  lemma PreviewIgnoresTail(t: seq<Booking>, u: seq<Booking>)
    requires |t| >= PreviewLength
    ensures Preview(t + u) == Preview(t)
  {
    assert (t + u)[..PreviewLength] == t[..PreviewLength];
  }
}
