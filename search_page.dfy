/**
 * The current search page: `handleSearch` narrows the catalogue through up to
 * five filters, the last of which compares each listing's postcode-area token
 * with the trimmed, upper-cased query, and then records the result and the
 * fact that a search has run.
 */
module SearchPage {
  import opened Wrappers
  import opened Text
  import opened SeqFilter
  import opened Listings
  import opened AreaToken

  /** `postcode && postcode.trim() !== ""`. */
  predicate PostcodeFilterActive(postcode: Option<string>)
  {
    postcode.Some? && Trim(postcode.value) != ""
  }

  /** The query text the listings are compared with (sanitising is taken as the identity). */
  function NormalizedPostcode(postcode: string): string
  {
    Upper(Trim(postcode))
  }

  /** A listing passes the postcode filter when its area token equals the normalised query. */
  predicate AreaMatches(query: string, l: Listing)
  {
    match FirstAreaToken(l.location)
    case Some(token) => token == query
    case None => false
  }

  predicate KeepsPostcode(postcode: Option<string>, l: Listing)
  {
    !PostcodeFilterActive(postcode) || AreaMatches(NormalizedPostcode(postcode.value), l)
  }

  /** The listing satisfies every active filter of the query. */
  predicate Keeps(q: Query, l: Listing)
  {
    && KeepsType(q.kind, l)
    && KeepsBedrooms(q.bedrooms, l)
    && KeepsPrice(q.price, l)
    && KeepsDate(q.dateAdded, l)
    && KeepsPostcode(q.postcode, l)
  }

  /** The result of a search: the listings that satisfy every active filter, in catalogue order. */
  function Search(properties: seq<Listing>, q: Query): seq<Listing>
  {
    Filter(properties, KeepsOf(q))
  }

  /** `Keeps(q, _)` as a function value, the predicate `Search` filters by. */
  function KeepsOf(q: Query): Listing -> bool
  {
    (l: Listing) => Keeps(q, l)
  }

  /**
   * The result is a subsequence of the catalogue that holds a listing exactly
   * when the listing satisfies every active filter, as often as the catalogue does.
   */
  lemma SearchSpec(properties: seq<Listing>, q: Query, l: Listing)
    ensures IsSubsequence(Search(properties, q), properties)
    ensures l in Search(properties, q) <==> l in properties && Keeps(q, l)
    ensures multiset(Search(properties, q))[l] == if Keeps(q, l) then multiset(properties)[l] else 0
  {
    FilterIsSubsequence(properties, KeepsOf(q));
    FilterMembership(properties, KeepsOf(q), l);
    FilterMultiplicity(properties, KeepsOf(q), l);
  }

  /** Every listing of the result satisfies each active filter, stated field by field. */
  lemma ResultsSatisfyActiveFilters(properties: seq<Listing>, q: Query, l: Listing)
    requires l in Search(properties, q)
    ensures l in properties
    ensures TypeFilterActive(q.kind) ==> l.kind == q.kind.value
    ensures q.bedrooms.Some? ==> q.bedrooms.value.lo <= l.bedrooms <= q.bedrooms.value.hi
    ensures q.price.Some? ==> q.price.value.lo <= l.price <= q.price.value.hi
    ensures q.dateAdded.Some? ==> OnOrAfter(l.added, q.dateAdded.value)
    ensures PostcodeFilterActive(q.postcode) ==>
      FirstAreaToken(l.location) == Some(NormalizedPostcode(q.postcode.value))
  {
    FilterMembership(properties, KeepsOf(q), l);
  }

  /** A type that is null, empty or "Any" gives the same result as no type at all. */
  lemma InactiveTypeIsNoFilter(properties: seq<Listing>, q: Query)
    requires !TypeFilterActive(q.kind)
    ensures Search(properties, q) == Search(properties, q.(kind := None))
  {
    FilterExt(properties, KeepsOf(q), KeepsOf(q.(kind := None)));
  }

  /** A blank postcode gives the same result as no postcode at all. */
  lemma BlankPostcodeIsNoFilter(properties: seq<Listing>, q: Query, blank: string)
    requires AllWhitespace(blank)
    ensures Search(properties, q.(postcode := Some(blank))) == Search(properties, q.(postcode := None))
  {
    TrimEmptyIffAllWhitespace(blank);
    FilterExt(properties, KeepsOf(q.(postcode := Some(blank))), KeepsOf(q.(postcode := None)));
  }

  /** The result is empty exactly when no listing of the catalogue satisfies every active filter. */
  lemma SearchEmpty(properties: seq<Listing>, q: Query)
    ensures Search(properties, q) == [] <==> forall l :: l in properties ==> !Keeps(q, l)
  {
    FilterEmpty(properties, KeepsOf(q));
  }

  /** A query whose every field is at its no-op value returns the whole catalogue. */
  lemma NoOpQueryKeepsAll(properties: seq<Listing>, blank: string)
    requires AllWhitespace(blank)
    ensures Search(properties, Query(Some("Any"), None, None, None, Some(blank))) == properties
    ensures Search(properties, Query(None, None, None, None, None)) == properties
  {
    TrimEmptyIffAllWhitespace(blank);
    FilterAllPass(properties, KeepsOf(Query(Some("Any"), None, None, None, Some(blank))));
    FilterAllPass(properties, KeepsOf(Query(None, None, None, None, None)));
  }

  /** A postcode that is missing, empty or only whitespace applies no postcode filter. */
  lemma BlankPostcodeNoFilter(postcode: Option<string>, l: Listing)
    ensures PostcodeFilterActive(postcode) <==> postcode.Some? && !AllWhitespace(postcode.value)
    ensures !PostcodeFilterActive(postcode) ==> KeepsPostcode(postcode, l)
  {
  }

  /**
   * A listing's area matches a query exactly when the leftmost-longest token of
   * its location is that query; a location without a token matches nothing.
   */
  lemma AreaMatchesSpec(query: string, l: Listing)
    ensures AreaMatches(query, l) <==>
      exists i: nat, n: nat :: IsFirstAreaToken(l.location, i, n) && l.location[i..i + n] == query
    ensures (forall k: nat :: !HasTokenAt(l.location, k)) ==> !AreaMatches(query, l)
  {
    var s := l.location;
    match FindAreaToken(s)
    case Some((i, n)) =>
      FindAreaTokenSpec(s, i, n);
      forall i': nat, n': nat | IsFirstAreaToken(s, i', n') ensures i' == i && n' == n {
        FindAreaTokenSpec(s, i', n');
      }
    case None =>
      FindAreaTokenSpec(s, 0, 0);
      forall i': nat, n': nat | IsFirstAreaToken(s, i', n') ensures false {
        FindAreaTokenSpec(s, i', n');
      }
  }

  /**
   * With an active postcode, a listing is kept exactly when its leftmost-longest
   * area token equals the trimmed, upper-cased query.
   */
  lemma PostcodeExactArea(postcode: string, l: Listing)
    requires PostcodeFilterActive(Some(postcode))
    ensures KeepsPostcode(Some(postcode), l) <==>
      exists i: nat, n: nat :: IsFirstAreaToken(l.location, i, n)
                               && l.location[i..i + n] == NormalizedPostcode(postcode)
    ensures (forall k: nat :: !HasTokenAt(l.location, k)) ==> !KeepsPostcode(Some(postcode), l)
  {
    AreaMatchesSpec(NormalizedPostcode(postcode), l);
  }

  /**
   * The query's case does not matter: a query and its upper-cased form are
   * both active or both not, and keep the same listings.
   */
  lemma QueryCaseIgnored(postcode: string, l: Listing)
    ensures PostcodeFilterActive(Some(Upper(postcode))) <==> PostcodeFilterActive(Some(postcode))
    ensures NormalizedPostcode(Upper(postcode)) == NormalizedPostcode(postcode)
    ensures KeepsPostcode(Some(Upper(postcode)), l) <==> KeepsPostcode(Some(postcode), l)
  {
    TrimUpper(postcode);
    UpperIdempotent(Trim(postcode));
  }

  /** Spaces around a query do not matter: `" " + w + " "` is active and normalises as `w` does. */
  lemma PaddedQuery(w: string)
    requires w != [] && !IsJsWhitespace(w[0]) && !IsJsWhitespace(w[|w| - 1])
    ensures PostcodeFilterActive(Some(" " + w + " "))
    ensures NormalizedPostcode(" " + w + " ") == Upper(w)
  {
    TrimPadded(w);
  }

  /** A lower-case query with surrounding spaces, " br5 ", keeps "Orpington BR5". */
  lemma LowercaseQueryKeepsTownFirstLocation(l: Listing)
    requires l.location == "Orpington BR5"
    ensures KeepsPostcode(Some(" br5 "), l)
  {
    assert PostcodeFilterActive(Some(" br5 ")) && NormalizedPostcode(" br5 ") == "BR5" by {
      PaddedQuery("br5");
      assert " " + "br5" + " " == " br5 ";
      assert Upper("br5") == "BR5";
    }
    assert AreaMatches("BR5", l) by {
      ExampleTownThenArea();
    }
  }

  /** A query that is not itself an area token ("BR", "BR123") keeps no listing. */
  lemma NonTokenQueryKeepsNothing(postcode: string, l: Listing)
    requires PostcodeFilterActive(Some(postcode))
    requires !IsAreaToken(NormalizedPostcode(postcode))
    ensures !KeepsPostcode(Some(postcode), l)
  {
  }

  /**
   * The match is exact, not a prefix: a query that is a proper prefix of the
   * listing's token ("BR1" against "BR15") does not keep it.
   */
  lemma PrefixOfTokenDoesNotMatch(postcode: string, l: Listing, token: string)
    requires PostcodeFilterActive(Some(postcode))
    requires FirstAreaToken(l.location) == Some(token)
    requires |NormalizedPostcode(postcode)| < |token|
    ensures !KeepsPostcode(Some(postcode), l)
  {
  }

  /**
   * The filters may run in any order: the five filters applied in reverse
   * order (postcode first) give the conjunction filter `Search`.
   */
  lemma FilterOrderIrrelevant(properties: seq<Listing>, q: Query)
    ensures Filter(Filter(Filter(Filter(Filter(properties,
              (l: Listing) => KeepsPostcode(q.postcode, l)),
              (l: Listing) => KeepsDate(q.dateAdded, l)),
              (l: Listing) => KeepsPrice(q.price, l)),
              (l: Listing) => KeepsBedrooms(q.bedrooms, l)),
              (l: Listing) => KeepsType(q.kind, l))
            == Search(properties, q)
  {
    var p5 := (l: Listing) => KeepsPostcode(q.postcode, l);
    var p4 := (l: Listing) => KeepsDate(q.dateAdded, l) && KeepsPostcode(q.postcode, l);
    var p3 := (l: Listing) => KeepsPrice(q.price, l) && p4(l);
    var p2 := (l: Listing) => KeepsBedrooms(q.bedrooms, l) && p3(l);
    FilterFuse(properties, p5, (l: Listing) => KeepsDate(q.dateAdded, l), p4);
    FilterFuse(properties, p4, (l: Listing) => KeepsPrice(q.price, l), p3);
    FilterFuse(properties, p3, (l: Listing) => KeepsBedrooms(q.bedrooms, l), p2);
    FilterFuse(properties, p2, (l: Listing) => KeepsType(q.kind, l), KeepsOf(q));
  }

  /** The predicate the postcode filter passes to `filter`. */
  function InArea(sanitized: string): Listing -> bool
  {
    (p: Listing) => AreaMatches(sanitized, p)
  }

  /** After the postcode filter the listings kept are exactly the search result. */
  lemma PostcodeStage(properties: seq<Listing>, before: seq<Listing>, q: Query)
    requires before == Filter(properties, KeptAfterDate(q))
    ensures (if PostcodeFilterActive(q.postcode)
             then Filter(before, InArea(NormalizedPostcode(q.postcode.value))) else before)
            == Search(properties, q)
  {
    if PostcodeFilterActive(q.postcode) {
      FilterStep(properties, before, KeptAfterDate(q), InArea(NormalizedPostcode(q.postcode.value)), KeepsOf(q));
    } else {
      FilterSkip(properties, before, KeptAfterDate(q), KeepsOf(q));
    }
  }

  /**
   * The body of `handleSearch` up to the state updates: `results` starts as the
   * catalogue and is narrowed by each active filter in turn.
   */
  method FilterProperties(properties: seq<Listing>, q: Query) returns (results: seq<Listing>)
    ensures results == Search(properties, q)
  {
    results := properties;
    if TypeFilterActive(q.kind) {
      results := Filter(results, HasKind(q.kind.value));
    }
    TypeStage(properties, results, q);

    if q.bedrooms.Some? {
      ghost var before := results;
      results := Filter(results, BedroomsIn(q.bedrooms.value));
      BedroomsStage(properties, before, q);
    } else {
      BedroomsStage(properties, results, q);
    }

    if q.price.Some? {
      ghost var before := results;
      results := Filter(results, PriceIn(q.price.value));
      PriceStage(properties, before, q);
    } else {
      PriceStage(properties, results, q);
    }

    if q.dateAdded.Some? {
      ghost var before := results;
      results := Filter(results, AddedOnOrAfter(q.dateAdded.value));
      DateStage(properties, before, q);
    } else {
      DateStage(properties, results, q);
    }

    if PostcodeFilterActive(q.postcode) {
      var sanitized := NormalizedPostcode(q.postcode.value);
      ghost var before := results;
      results := Filter(results, InArea(sanitized));
      PostcodeStage(properties, before, q);
    } else {
      PostcodeStage(properties, results, q);
    }
  }

  /** What the page shows under the form (`SearchPage.jsx` lines 88-94). */
  datatype Notice = UseTheForm | NoMatches | ResultsShown

  /** The component's state: the catalogue it was given and the two `useState` hooks. */
  class Session {
    const properties: seq<Listing>
    var filteredProperties: seq<Listing>
    var hasSearched: bool
    /** The query of the last search, if any. */
    ghost var lastQuery: Option<Query>

    /** The shown list is always the result of the last search, or empty before any. */
    ghost predicate Valid()
      reads this
    {
      && hasSearched == lastQuery.Some?
      && filteredProperties == if lastQuery.Some? then Search(properties, lastQuery.value) else []
    }

    constructor (properties: seq<Listing>)
      ensures Valid()
      ensures this.properties == properties
      ensures filteredProperties == [] && !hasSearched && lastQuery == None
    {
      this.properties := properties;
      filteredProperties := [];
      hasSearched := false;
      lastQuery := None;
    }

    /** `handleSearch`: the filter pipeline, then the two state updates. */
    method HandleSearch(q: Query)
      requires Valid()
      modifies this
      ensures Valid()
      ensures hasSearched && lastQuery == Some(q)
      ensures filteredProperties == Search(properties, q)
    {
      var results := FilterProperties(properties, q);
      filteredProperties := results;
      hasSearched := true;
      lastQuery := Some(q);
    }

    /**
     * The prompt shows before the first search; the "no matches" notice shows
     * exactly when a search has run and no listing satisfies its filters.
     */
    function Notice(): (n: Notice)
      requires Valid()
      reads this
      ensures n == UseTheForm <==> !hasSearched
      ensures n == NoMatches <==>
        lastQuery.Some? && forall l :: l in properties ==> !Keeps(lastQuery.value, l)
    {
      if !hasSearched then UseTheForm
      else
        SearchEmpty(properties, lastQuery.value);
        if |filteredProperties| == 0 then NoMatches
      else ResultsShown
    }
  }
}
