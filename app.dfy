/**
 * The older search component: the same pipeline as the search page except for
 * the postcode filter, which keeps a listing whose upper-cased location starts
 * with the query text exactly as submitted.
 */
module App {
  import opened Wrappers
  import opened Text
  import opened SeqFilter
  import opened Listings
  import opened AreaToken
  import SearchPage

  /** `if (postcode)`: the prefix filter runs for any non-empty text, blank or not. */
  predicate PostcodeFilterActive(postcode: Option<string>)
  {
    postcode.Some? && postcode.value != ""
  }

  /** `p.location.toUpperCase().startsWith(postcode)`. */
  predicate LocationStartsWith(postcode: string, l: Listing)
  {
    StartsWith(Upper(l.location), postcode)
  }

  predicate KeepsPostcode(postcode: Option<string>, l: Listing)
  {
    !PostcodeFilterActive(postcode) || LocationStartsWith(postcode.value, l)
  }

  /** The listing satisfies every active filter of the query. */
  predicate Keeps(q: Query, l: Listing)
  {
    && KeepsType(q.kind, l)
    && KeepsBedrooms(q.bedrooms, l)
    && KeepsPrice(q.price, l)
    && KeepsDate(q.dateAdded, l)
    && KeepsPostcode(q.postcode, l)
  }

  function KeepsOf(q: Query): Listing -> bool
  {
    (l: Listing) => Keeps(q, l)
  }

  /** The result of a search: the listings that satisfy every active filter, in catalogue order. */
  function Search(properties: seq<Listing>, q: Query): seq<Listing>
  {
    Filter(properties, KeepsOf(q))
  }

  /**
   * The result is a subsequence of the catalogue that holds a listing exactly
   * when the listing satisfies every active filter, as often as the catalogue does.
   */
  lemma SearchSpec(properties: seq<Listing>, q: Query, l: Listing)
    ensures IsSubsequence(Search(properties, q), properties)
    ensures l in Search(properties, q) <==> l in properties && Keeps(q, l)
    ensures multiset(Search(properties, q))[l] == if Keeps(q, l) then multiset(properties)[l] else 0
  {
    FilterIsSubsequence(properties, KeepsOf(q));
    FilterMembership(properties, KeepsOf(q), l);
    FilterMultiplicity(properties, KeepsOf(q), l);
  }

  /** The predicate the postcode filter passes to `filter`. */
  function LocationPrefix(postcode: string): Listing -> bool
  {
    (p: Listing) => LocationStartsWith(postcode, p)
  }

  /** After the postcode filter the listings kept are exactly the search result. */
  lemma PostcodeStage(properties: seq<Listing>, before: seq<Listing>, q: Query)
    requires before == Filter(properties, KeptAfterDate(q))
    ensures (if PostcodeFilterActive(q.postcode)
             then Filter(before, LocationPrefix(q.postcode.value)) else before)
            == Search(properties, q)
  {
    if PostcodeFilterActive(q.postcode) {
      FilterStep(properties, before, KeptAfterDate(q), LocationPrefix(q.postcode.value), KeepsOf(q));
    } else {
      FilterSkip(properties, before, KeptAfterDate(q), KeepsOf(q));
    }
  }

  /** The body of `handleSearch` up to the state updates. */
  method FilterProperties(properties: seq<Listing>, q: Query) returns (results: seq<Listing>)
    ensures results == Search(properties, q)
  {
    results := properties;
    if TypeFilterActive(q.kind) {
      results := Filter(results, HasKind(q.kind.value));
    }
    TypeStage(properties, results, q);

    if q.bedrooms.Some? {
      ghost var before := results;
      results := Filter(results, BedroomsIn(q.bedrooms.value));
      BedroomsStage(properties, before, q);
    } else {
      BedroomsStage(properties, results, q);
    }

    if q.price.Some? {
      ghost var before := results;
      results := Filter(results, PriceIn(q.price.value));
      PriceStage(properties, before, q);
    } else {
      PriceStage(properties, results, q);
    }

    if q.dateAdded.Some? {
      ghost var before := results;
      results := Filter(results, AddedOnOrAfter(q.dateAdded.value));
      DateStage(properties, before, q);
    } else {
      DateStage(properties, results, q);
    }

    if PostcodeFilterActive(q.postcode) {
      ghost var before := results;
      results := Filter(results, LocationPrefix(q.postcode.value));
      PostcodeStage(properties, before, q);
    } else {
      PostcodeStage(properties, results, q);
    }
  }

  /** Upper-casing commutes with taking a prefix. */
  lemma UpperPrefix(s: string, n: nat)
    requires n <= |s|
    ensures Upper(s)[..n] == Upper(s[..n])
  {
  }

  /**
   * The query is not upper-cased here: a query holding a lower-case ASCII
   * letter keeps no listing, whatever its location.
   */
  lemma LowercaseQueryKeepsNothing(postcode: string, k: nat, l: Listing)
    requires k < |postcode| && IsAsciiLower(postcode[k])
    ensures !KeepsPostcode(Some(postcode), l)
  {
  }

  /**
   * An upper-case query matches case-insensitively: it keeps a listing exactly
   * when the location begins with text that upper-cases to the query.
   */
  lemma UppercaseQueryIgnoresCase(postcode: string, l: Listing)
    requires PostcodeFilterActive(Some(postcode))
    requires Upper(postcode) == postcode
    ensures KeepsPostcode(Some(postcode), l) <==>
      |postcode| <= |l.location| && Upper(l.location[..|postcode|]) == postcode
  {
  }

  /**
   * The query is not trimmed here either: a query of spaces is active and keeps
   * only locations that begin with as many spaces.
   */
  lemma BlankQueryIsActive(postcode: string, l: Listing)
    requires postcode != "" && forall k :: 0 <= k < |postcode| ==> postcode[k] == ' '
    ensures PostcodeFilterActive(Some(postcode))
    ensures KeepsPostcode(Some(postcode), l) ==>
      |postcode| <= |l.location| && forall k :: 0 <= k < |postcode| ==> l.location[k] == ' '
  {
    if KeepsPostcode(Some(postcode), l) {
      forall k | 0 <= k < |postcode| ensures l.location[k] == ' ' {
        assert Upper(l.location)[k] == postcode[k];
      }
    }
  }

  // How the two postcode rules compare.

  /** An area token is unchanged by trimming and upper-casing. */
  lemma TokenIsNormalized(t: string)
    requires IsAreaToken(t)
    ensures SearchPage.NormalizedPostcode(t) == t
  {
    assert !IsJsWhitespace(t[0]);
    assert TrimStart(t) == t;
    assert !IsJsWhitespace(t[|t| - 1]);
    assert TrimEnd(t) == t;
    assert forall k :: 0 <= k < |t| ==> !IsAsciiLower(t[k]);
  }

  /**
   * When the location begins with its area token and the query is that token,
   * both rules keep the listing.
   */
  lemma RulesAgreeOnLeadingToken(l: Listing, n: nat)
    requires FindAreaToken(l.location) == Some((0, n))
    ensures SearchPage.KeepsPostcode(Some(l.location[..n]), l)
    ensures KeepsPostcode(Some(l.location[..n]), l)
  {
    var t := l.location[..n];
    assert t == l.location[0..0 + n];
    TokenIsNormalized(t);
    TrimEmptyIffAllWhitespace(t);
    assert !IsJsWhitespace(t[0]);
    UpperPrefix(l.location, n);
    assert forall k :: 0 <= k < |t| ==> !IsAsciiLower(t[k]);
    assert Upper(t) == t;
  }

  /** The search page's area filter keeps "Orpington BR5" for the query "BR5". */
  lemma AreaRuleKeepsTownFirstLocation(l: Listing)
    requires l.location == "Orpington BR5"
    ensures SearchPage.KeepsPostcode(Some("BR5"), l)
  {
    ExampleTownThenArea();
    TokenIsNormalized("BR5");
    assert Trim("BR5") != "" by {
      TrimEmptyIffAllWhitespace("BR5");
      assert !IsJsWhitespace("BR5"[0]);
    }
  }

  /**
   * The prefix rule drops the same listing: its location starts with the town
   * name, so no area query can match it.
   */
  lemma PrefixRuleMissesTownFirstLocation(l: Listing)
    requires l.location == "Orpington BR5"
    ensures !KeepsPostcode(Some("BR5"), l)
  {
    assert Upper(l.location)[0] == 'O';
  }

  /** The prefix rule keeps "BR15 Bromley" for "BR1"; the area rule, being exact, does not. */
  lemma PrefixRuleKeepsLongerArea(l: Listing)
    requires l.location == "BR15 Bromley"
    ensures KeepsPostcode(Some("BR1"), l)
    ensures !SearchPage.KeepsPostcode(Some("BR1"), l)
  {
    assert Upper(l.location)[..3] == "BR1";
    var s := l.location;
    FirstMatchAt(s, 0, 0, 4);
    assert s[0..4] == "BR15";
    assert FirstAreaToken(s) == Some("BR15");
    assert SearchPage.PostcodeFilterActive(Some("BR1")) by {
      assert !IsJsWhitespace("BR1"[0]);
      TrimEmptyIffAllWhitespace("BR1");
    }
    TokenIsNormalized("BR1");
  }

  /** What the component shows under the form (`App.jsx` lines 48-54). */
  datatype Notice = UseTheForm | NoMatches | ResultsShown

  /** The component's two `useState` hooks over the bundled catalogue. */
  class Session {
    const properties: seq<Listing>
    var filteredProperties: seq<Listing>
    var hasSearched: bool
    /** The query of the last search, if any. */
    ghost var lastQuery: Option<Query>

    /** The shown list is always the result of the last search, or empty before any. */
    ghost predicate Valid()
      reads this
    {
      && hasSearched == lastQuery.Some?
      && filteredProperties == if lastQuery.Some? then Search(properties, lastQuery.value) else []
    }

    constructor (properties: seq<Listing>)
      ensures Valid()
      ensures this.properties == properties
      ensures filteredProperties == [] && !hasSearched && lastQuery == None
    {
      this.properties := properties;
      filteredProperties := [];
      hasSearched := false;
      lastQuery := None;
    }

    /** `handleSearch`: the filter pipeline, then the two state updates. */
    method HandleSearch(q: Query)
      requires Valid()
      modifies this
      ensures Valid()
      ensures hasSearched && lastQuery == Some(q)
      ensures filteredProperties == Search(properties, q)
    {
      var results := FilterProperties(properties, q);
      filteredProperties := results;
      hasSearched := true;
      lastQuery := Some(q);
    }

    /**
     * The prompt shows before the first search; the "no matches" notice shows
     * exactly when a search has run and no listing satisfies its filters.
     */
    function Notice(): (n: Notice)
      requires Valid()
      reads this
      ensures n == UseTheForm <==> !hasSearched
      ensures n == NoMatches <==>
        lastQuery.Some? && forall l :: l in properties ==> !Keeps(lastQuery.value, l)
    {
      if !hasSearched then UseTheForm
      else
        FilterEmpty(properties, KeepsOf(lastQuery.value));
        if |filteredProperties| == 0 then NoMatches
        else ResultsShown
    }
  }
}
