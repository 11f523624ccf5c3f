/** One booking record (one row of the table) and the per-row lookups that
    the dashboard derives from it: the month-name table, the guest total and
    the cancellation label. */
module Bookings {
  import opened Wrappers

  /** A row of the booking table. Nullable columns are `Option`s (`None` is
      the dataframe's null). The last three fields are the derived columns;
      they are `None` until the step that assigns the column has run. */
  datatype Booking = Booking(
    hotel: Option<string>,
    isCanceled: int,
    arrivalYear: int,
    arrivalMonth: Option<string>,
    adults: Option<int>,
    children: Option<int>,
    babies: Option<int>,
    weekendNights: int,
    weekNights: int,
    adr: Option<real>,
    marketSegment: Option<string>,
    country: Option<string>,
    assignedRoomType: Option<string>,
    leadTime: int,
    monthNum: Option<int>,
    totalGuests: Option<int>,
    statusText: Option<string>)

  /** The fixed English month names, in calendar order. */
  const MonthNames: seq<string> :=
    ["January", "February", "March", "April", "May", "June",
     "July", "August", "September", "October", "November", "December"]

  /** The month-name dictionary applied with `Series.map`: a name that is not
      a key (a different case, a typo, a null cell) yields null, never a
      default number. */
  function MonthNumber(name: Option<string>): (k: Option<int>)
    ensures k.Some? ==> 1 <= k.value <= 12 && name == Some(MonthNames[k.value - 1])
  {
    match name
    case None => None
    case Some(s) =>
      match s
      case "January" => Some(1)
      case "February" => Some(2)
      case "March" => Some(3)
      case "April" => Some(4)
      case "May" => Some(5)
      case "June" => Some(6)
      case "July" => Some(7)
      case "August" => Some(8)
      case "September" => Some(9)
      case "October" => Some(10)
      case "November" => Some(11)
      case "December" => Some(12)
      case _ => None
  }

  /** The lookup is exact: a name maps to k precisely when it is the k-th
      month name, so every one of the twelve names is mapped and nothing else. */
  lemma MonthNumberExact(s: string, k: int)
    ensures MonthNumber(Some(s)) == Some(k) <==> 1 <= k <= 12 && s == MonthNames[k - 1]
  {
    if 1 <= k <= 12 && s == MonthNames[k - 1] {
      assert MonthNames[0] == "January" && MonthNames[1] == "February" && MonthNames[2] == "March";
      assert MonthNames[3] == "April" && MonthNames[4] == "May" && MonthNames[5] == "June";
      assert MonthNames[6] == "July" && MonthNames[7] == "August" && MonthNames[8] == "September";
      assert MonthNames[9] == "October" && MonthNames[10] == "November" && MonthNames[11] == "December";
    }
  }

  /** Distinct months have distinct names, so the month number determines the
      name and the other way round. */
  lemma MonthNamesDistinct(i: int, j: int)
    requires 0 <= i < 12 && 0 <= j < 12 && i != j
    ensures MonthNames[i] != MonthNames[j]
  {
    MonthNumberExact(MonthNames[i], i + 1);
    MonthNumberExact(MonthNames[j], j + 1);
  }

  /** `adults + children + babies` on nullable integers: null as soon as one
      operand is null. */
  function GuestTotal(adults: Option<int>, children: Option<int>, babies: Option<int>): (n: Option<int>)
    ensures n.Some? <==> adults.Some? && children.Some? && babies.Some?
    ensures n.Some? ==> n.value == adults.value + children.value + babies.value
  {
    match (adults, children, babies)
    case (Some(a), Some(c), Some(b)) => Some(a + c + b)
    case _ => None
  }

  const CheckOutLabel: string := "Check-Out (No Canceló)"
  const CanceledLabel: string := "Cancelado"

  /** The two-entry dictionary `{0: ..., 1: ...}` applied to `is_canceled`:
      any other value is not a key and yields null. */
  function StatusLabel(isCanceled: int): (text: Option<string>)
    ensures text == Some(CheckOutLabel) <==> isCanceled == 0
    ensures text == Some(CanceledLabel) <==> isCanceled == 1
    ensures text.None? <==> isCanceled != 0 && isCanceled != 1
  {
    if isCanceled == 0 then Some(CheckOutLabel)
    else if isCanceled == 1 then Some(CanceledLabel)
    else None
  }
}
