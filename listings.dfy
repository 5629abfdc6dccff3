/**
 * The catalogue's records and the search query, and the filter predicates that
 * both versions of the search share: property type, bedroom range, price
 * range and date added.
 */
module Listings {
  import opened Wrappers
  import opened SeqFilter

  /**
   * A calendar day: `month` is a zero-based month index (0 is January), as
   * JavaScript's `getMonth()` gives it; `day` is the day of the month.
   */
  datatype Date = Date(year: int, month: int, day: int)

  /** Leap years of the Gregorian calendar, which JavaScript's `Date` uses. */
  predicate IsLeapYear(y: int)
  {
    (y % 4 == 0 && y % 100 != 0) || y % 400 == 0
  }

  /** The number of days in month `m` (zero-based) of year `y`. */
  function DaysInMonth(y: int, m: int): (n: int)
    requires 0 <= m < 12
    ensures 28 <= n <= 31
    ensures n == 31 <==> m in {0, 2, 4, 6, 7, 9, 11}
    ensures m in {3, 5, 8, 10} ==> n == 30
    ensures m == 1 ==> n == (if IsLeapYear(y) then 29 else 28)
  {
    if m == 1 then (if IsLeapYear(y) then 29 else 28)
    else if m == 3 || m == 5 || m == 8 || m == 10 then 30
    else 31
  }

  /** A day that exists in the calendar, so `new Date(y, m, d)` does not roll it over. */
  predicate ValidDate(d: Date)
  {
    0 <= d.month < 12 && 1 <= d.day <= DaysInMonth(d.year, d.month)
  }

  /** `a` is the same day as `b` or a later one (lexicographic on year, month, day). */
  predicate OnOrAfter(a: Date, b: Date)
  {
    || a.year > b.year
    || (a.year == b.year && a.month > b.month)
    || (a.year == b.year && a.month == b.month && a.day >= b.day)
  }

  /**
   * A day index with 31 slots per month: it grows strictly with the calendar
   * day, but it is not JavaScript's time value (days between two dates are not
   * its difference).
   */
  function DayNumber(d: Date): int
  {
    d.year * 372 + d.month * 31 + d.day
  }

  /**
   * On real calendar days the lexicographic comparison is the order of the
   * day index, so it orders days as `addedDate >= dateAdded` orders the two
   * `Date` objects' time values.
   */
  lemma OnOrAfterIsTimeOrder(a: Date, b: Date)
    requires ValidDate(a) && ValidDate(b)
    ensures OnOrAfter(a, b) <==> DayNumber(a) >= DayNumber(b)
  {
  }

  /** One listing of the catalogue; `kind` is the record's `type` field. */
  datatype Listing = Listing(
    id: string,
    kind: string,
    bedrooms: int,
    price: int,
    location: string,
    added: Date,
    description: string)

  /** An inclusive `[lo, hi]` pair as the form's range sliders give it. */
  datatype Range = Range(lo: int, hi: int)

  /**
   * The object the search form submits. A `None` field is a null or
   * undefined one; `postcode` is the raw text of the postcode box.
   */
  datatype Query = Query(
    kind: Option<string>,
    bedrooms: Option<Range>,
    price: Option<Range>,
    dateAdded: Option<Date>,
    postcode: Option<string>)

  /** `type && type !== "Any"`: the type filter runs only for a non-empty type other than "Any". */
  predicate TypeFilterActive(kind: Option<string>)
  {
    kind.Some? && kind.value != "" && kind.value != "Any"
  }

  predicate KeepsType(kind: Option<string>, l: Listing)
  {
    !TypeFilterActive(kind) || l.kind == kind.value
  }

  /** `v >= r[0] && v <= r[1]`, or true when there is no range. */
  predicate InRange(r: Option<Range>, v: int)
  {
    r.None? || (r.value.lo <= v && v <= r.value.hi)
  }

  predicate KeepsBedrooms(r: Option<Range>, l: Listing)
  {
    InRange(r, l.bedrooms)
  }

  predicate KeepsPrice(r: Option<Range>, l: Listing)
  {
    InRange(r, l.price)
  }

  predicate KeepsDate(d: Option<Date>, l: Listing)
  {
    d.None? || OnOrAfter(l.added, d.value)
  }

  /** Both ends of a range are kept, and nothing outside it. */
  lemma RangeInclusive(lo: int, hi: int, v: int)
    requires lo <= hi
    ensures InRange(Some(Range(lo, hi)), lo) && InRange(Some(Range(lo, hi)), hi)
    ensures InRange(Some(Range(lo, hi)), v) <==> lo <= v <= hi
  {
  }

  /** A range with its ends swapped keeps nothing: the code does not reject it. */
  lemma InvertedRangeKeepsNothing(lo: int, hi: int, v: int)
    requires lo > hi
    ensures !InRange(Some(Range(lo, hi)), v)
  {
  }

  /** `OnOrAfter` is a total order on calendar days. */
  lemma OnOrAfterTotalOrder(a: Date, b: Date, c: Date)
    ensures OnOrAfter(a, a)
    ensures OnOrAfter(a, b) || OnOrAfter(b, a)
    ensures OnOrAfter(a, b) && OnOrAfter(b, a) ==> a == b
    ensures OnOrAfter(a, b) && OnOrAfter(b, c) ==> OnOrAfter(a, c)
  {
  }

  // The predicates both versions of `handleSearch` pass to `filter` before the postcode filter.

  function HasKind(kind: string): Listing -> bool
  {
    (p: Listing) => p.kind == kind
  }

  function BedroomsIn(r: Range): Listing -> bool
  {
    (p: Listing) => p.bedrooms >= r.lo && p.bedrooms <= r.hi
  }

  function PriceIn(r: Range): Listing -> bool
  {
    (p: Listing) => p.price >= r.lo && p.price <= r.hi
  }

  function AddedOnOrAfter(d: Date): Listing -> bool
  {
    (p: Listing) => OnOrAfter(p.added, d)
  }

  // What the listings kept after the first one, two, three and four filters satisfy.

  function KeptAfterType(q: Query): Listing -> bool
  {
    (l: Listing) => KeepsType(q.kind, l)
  }

  function KeptAfterBedrooms(q: Query): Listing -> bool
  {
    (l: Listing) => KeepsType(q.kind, l) && KeepsBedrooms(q.bedrooms, l)
  }

  function KeptAfterPrice(q: Query): Listing -> bool
  {
    (l: Listing) => KeepsType(q.kind, l) && KeepsBedrooms(q.bedrooms, l) && KeepsPrice(q.price, l)
  }

  function KeptAfterDate(q: Query): Listing -> bool
  {
    (l: Listing) => KeepsType(q.kind, l) && KeepsBedrooms(q.bedrooms, l) && KeepsPrice(q.price, l)
                    && KeepsDate(q.dateAdded, l)
  }

  /** After the type filter (or its skipping) the listings kept are those of the type. */
  lemma TypeStage(properties: seq<Listing>, results: seq<Listing>, q: Query)
    requires results == if TypeFilterActive(q.kind) then Filter(properties, HasKind(q.kind.value)) else properties
    ensures results == Filter(properties, KeptAfterType(q))
  {
    if TypeFilterActive(q.kind) {
      FilterExt(properties, HasKind(q.kind.value), KeptAfterType(q));
    } else {
      FilterAllPass(properties, KeptAfterType(q));
    }
  }

  lemma BedroomsStage(properties: seq<Listing>, before: seq<Listing>, q: Query)
    requires before == Filter(properties, KeptAfterType(q))
    ensures (if q.bedrooms.Some? then Filter(before, BedroomsIn(q.bedrooms.value)) else before)
            == Filter(properties, KeptAfterBedrooms(q))
  {
    if q.bedrooms.Some? {
      FilterStep(properties, before, KeptAfterType(q), BedroomsIn(q.bedrooms.value), KeptAfterBedrooms(q));
    } else {
      FilterSkip(properties, before, KeptAfterType(q), KeptAfterBedrooms(q));
    }
  }

  lemma PriceStage(properties: seq<Listing>, before: seq<Listing>, q: Query)
    requires before == Filter(properties, KeptAfterBedrooms(q))
    ensures (if q.price.Some? then Filter(before, PriceIn(q.price.value)) else before)
            == Filter(properties, KeptAfterPrice(q))
  {
    if q.price.Some? {
      FilterStep(properties, before, KeptAfterBedrooms(q), PriceIn(q.price.value), KeptAfterPrice(q));
    } else {
      FilterSkip(properties, before, KeptAfterBedrooms(q), KeptAfterPrice(q));
    }
  }

  lemma DateStage(properties: seq<Listing>, before: seq<Listing>, q: Query)
    requires before == Filter(properties, KeptAfterPrice(q))
    ensures (if q.dateAdded.Some? then Filter(before, AddedOnOrAfter(q.dateAdded.value)) else before)
            == Filter(properties, KeptAfterDate(q))
  {
    if q.dateAdded.Some? {
      FilterStep(properties, before, KeptAfterPrice(q), AddedOnOrAfter(q.dateAdded.value), KeptAfterDate(q));
    } else {
      FilterSkip(properties, before, KeptAfterPrice(q), KeptAfterDate(q));
    }
  }
}
