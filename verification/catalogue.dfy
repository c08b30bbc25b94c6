/** The item catalogue of the dashboard: the search, category and kind
    filters, and the four sort orders. */
module Catalogue {
  import opened Wrappers
  import opened Text
  import opened Seqs
  import opened Records

  /** A catalogue entry as the dashboard and the services page hold it: an
      `items` row with the owner's trust score joined in. Prices and trust
      scores are whole numbers here, `created_at` is milliseconds. */
  datatype Listing = Listing(
    id: Id,
    title: string,
    description: Option<string>,
    category: string,
    dailyRate: Option<Money>,
    hourlyRate: Option<Money>,
    isService: Option<bool>,
    serviceType: Option<string>,
    createdAt: Millis,
    trustScore: Option<int>)

  predicate IsService(l: Listing) {
    l.isService == Some(true)
  }

  // ---- Filters -------------------------------------------------------------

  /** The lower-cased query occurs in the lower-cased title or, when there is
      one, the lower-cased description. */
  predicate MatchesSearch(l: Listing, query: string) {
    Contains(Lower(l.title), Lower(query))
    || (l.description.Some? && Contains(Lower(l.description.value), Lower(query)))
  }

  predicate MatchesCategory(l: Listing, category: string) {
    category == "all" || l.category == category
  }

  /** "all" shows everything, "items" the non-services, "services" the
      services; any other value shows nothing. */
  predicate MatchesKind(l: Listing, kind: string) {
    kind == "all" || (kind == "items" && !IsService(l)) || (kind == "services" && IsService(l))
  }

  predicate Shown(l: Listing, query: string, category: string, kind: string) {
    MatchesSearch(l, query) && MatchesCategory(l, category) && MatchesKind(l, kind)
  }

  /** `filteredItems`: the listings that pass all three filters, in the
      order fetched. */
  function FilterItems(items: seq<Listing>, query: string, category: string, kind: string): (r: seq<Listing>)
    ensures SubseqOf(r, items)
    ensures forall l :: l in r <==> l in items && Shown(l, query, category, kind)
    ensures |r| == Count(items, l => Shown(l, query, category, kind))
  {
    var p := (l: Listing) => Shown(l, query, category, kind);
    FilterKeepsEvery(items, p);
    FilterSubseq(items, p);
    FilterCount(items, p);
    Filter(items, p)
  }

  /** An empty query hides nothing: with "all" for category and kind every
      fetched listing is shown. */
  lemma EmptyQueryShowsAll(items: seq<Listing>)
    ensures FilterItems(items, "", "all", "all") == items
  {
    forall l | l in items ensures MatchesSearch(l, "") {
      ContainsEmpty(Lower(l.title));
    }
    FilterAll(items, (l: Listing) => Shown(l, "", "all", "all"));
  }

  /** The kinds "items" and "services" split the listings between them. */
  lemma KindsPartition(l: Listing)
    ensures MatchesKind(l, "items") != MatchesKind(l, "services")
    ensures MatchesKind(l, "all")
  {
  }

  // ---- Sorting -------------------------------------------------------------

  /** The price a listing sorts by: the hourly rate of a service, the daily
      rate of an item, with a missing or zero rate read as 0. */
  function Price(l: Listing): (p: int)
    ensures IsService(l) ==> p == l.hourlyRate.GetOr(0)
    ensures !IsService(l) ==> p == l.dailyRate.GetOr(0)
  {
    if IsService(l) then OrElse(l.hourlyRate, 0) else OrElse(l.dailyRate, 0)
  }

  function Trust(l: Listing): int {
    OrElse(l.trustScore, 0)
  }

  /** The comparator of `sortedItems` as a rank: `sort` with `(a, b) => f(a)
      - f(b)` puts smaller `f` first. "newest" and every unknown key sort by
      creation time, latest first. */
  function Rank(sortBy: string): Listing -> int {
    match sortBy
    case "price_low" => (l: Listing) => Price(l)
    case "price_high" => (l: Listing) => -Price(l)
    case "rating" => (l: Listing) => -Trust(l)
    case _ => (l: Listing) => -l.createdAt
  }

  /** `sortedItems`: a reordering of the filtered listings in the order the
      sort key asks for. */
  function SortItems(items: seq<Listing>, sortBy: string): (r: seq<Listing>)
    ensures multiset(r) == multiset(items)
    ensures sortBy == "price_low" ==> forall i, j :: 0 <= i < j < |r| ==> Price(r[i]) <= Price(r[j])
    ensures sortBy == "price_high" ==> forall i, j :: 0 <= i < j < |r| ==> Price(r[i]) >= Price(r[j])
    ensures sortBy == "rating" ==> forall i, j :: 0 <= i < j < |r| ==> Trust(r[i]) >= Trust(r[j])
    ensures sortBy !in {"price_low", "price_high", "rating"} ==>
              forall i, j :: 0 <= i < j < |r| ==> r[i].createdAt >= r[j].createdAt
  {
    var r := SortBy(items, Rank(sortBy));
    assert forall i, j :: 0 <= i < j < |r| ==> Rank(sortBy)(r[i]) <= Rank(sortBy)(r[j]);
    r
  }

  /** The sort is stable: listings that tie on the key stay in the order
      they were fetched. */
  lemma SortItemsStable(items: seq<Listing>, sortBy: string, k: int)
    ensures WithRank(SortItems(items, sortBy), Rank(sortBy), k) == WithRank(items, Rank(sortBy), k)
  {
    SortByStable(items, Rank(sortBy), k);
  }
}
