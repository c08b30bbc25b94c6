/** The services page: the search and service-type filters, the hourly-rate
    sort, and the per-type tally of offered services. */
module Services {
  import opened Wrappers
  import opened Text
  import opened Seqs
  import opened Records
  import opened Catalogue

  // ---- Filter and sort -----------------------------------------------------

  /** "all" shows every service; any other value shows the services of
      exactly that type, so a service without a type is shown only under
      "all". */
  predicate MatchesType(l: Listing, ty: string) {
    ty == "all" || l.serviceType == Some(ty)
  }

  /** `filteredServices`: the services passing the search and type filters,
      in the order fetched. */
  function FilterServices(services: seq<Listing>, query: string, ty: string): (r: seq<Listing>)
    ensures SubseqOf(r, services)
    ensures forall l :: l in r <==> l in services && MatchesSearch(l, query) && MatchesType(l, ty)
    ensures |r| == Count(services, (l: Listing) => MatchesSearch(l, query) && MatchesType(l, ty))
  {
    var p := (l: Listing) => MatchesSearch(l, query) && MatchesType(l, ty);
    FilterKeepsEvery(services, p);
    FilterSubseq(services, p);
    FilterCount(services, p);
    Filter(services, p)
  }

  function HourlyPrice(l: Listing): int {
    OrElse(l.hourlyRate, 0)
  }

  /** The comparator of `sortedServices` as a rank; unlike the dashboard the
      price is always the hourly rate. */
  function ServiceRank(sortBy: string): Listing -> int {
    match sortBy
    case "price_low" => (l: Listing) => HourlyPrice(l)
    case "price_high" => (l: Listing) => -HourlyPrice(l)
    case "rating" => (l: Listing) => -Trust(l)
    case _ => (l: Listing) => -l.createdAt
  }

  /** `sortedServices`: a reordering of the filtered services in the order
      the sort key asks for. */
  function SortServices(services: seq<Listing>, sortBy: string): (r: seq<Listing>)
    ensures multiset(r) == multiset(services)
    ensures sortBy == "price_low" ==> forall i, j :: 0 <= i < j < |r| ==> HourlyPrice(r[i]) <= HourlyPrice(r[j])
    ensures sortBy == "price_high" ==> forall i, j :: 0 <= i < j < |r| ==> HourlyPrice(r[i]) >= HourlyPrice(r[j])
    ensures sortBy == "rating" ==> forall i, j :: 0 <= i < j < |r| ==> Trust(r[i]) >= Trust(r[j])
    ensures sortBy !in {"price_low", "price_high", "rating"} ==>
              forall i, j :: 0 <= i < j < |r| ==> r[i].createdAt >= r[j].createdAt
  {
    var r := SortBy(services, ServiceRank(sortBy));
    assert forall i, j :: 0 <= i < j < |r| ==> ServiceRank(sortBy)(r[i]) <= ServiceRank(sortBy)(r[j]);
    r
  }

  /** On services the two price orders agree: the dashboard's price of a
      service is its hourly rate. */
  lemma ServicePriceIsHourly(l: Listing)
    requires IsService(l)
    ensures Price(l) == HourlyPrice(l)
  {
  }

  // ---- topServiceTypes -----------------------------------------------------

  /** `service.service_type || 'Other'`. */
  function TypeKey(l: Listing): (k: string)
    ensures k != ""
    ensures l.serviceType.Some? && l.serviceType.value != "" ==> k == l.serviceType.value
  {
    if l.serviceType.Some? && l.serviceType.value != "" then l.serviceType.value else "Other"
  }

  /** An object from keys to counts, keys in insertion order. */
  type Tally = seq<(string, nat)>

  /** `Object.keys(acc)`. */
  function Keys(t: Tally): seq<string> {
    if |t| == 0 then [] else [t[0].0] + Keys(t[1..])
  }

  /** `acc[key] || 0`. */
  function Lookup(t: Tally, key: string): nat {
    if |t| == 0 then 0
    else if t[0].0 == key then t[0].1
    else Lookup(t[1..], key)
  }

  /** `acc[key] = (acc[key] || 0) + 1`. */
  function Bump(t: Tally, key: string): Tally {
    if |t| == 0 then [(key, 1)]
    else if t[0].0 == key then [(key, t[0].1 + 1)] + t[1..]
    else [t[0]] + Bump(t[1..], key)
  }

  /** Bumping a key counts one more under it and changes no other count. */
  lemma {:induction false} BumpLookup(t: Tally, key: string, k: string)
    ensures Lookup(Bump(t, key), k) == Lookup(t, k) + (if k == key then 1 else 0)
  {
    if |t| > 0 {
      if t[0].0 == key {
        assert ([(key, t[0].1 + 1)] + t[1..])[1..] == t[1..];
      } else {
        BumpLookup(t[1..], key, k);
        assert ([t[0]] + Bump(t[1..], key))[1..] == Bump(t[1..], key);
      }
    }
  }

  /** An existing key keeps its place; a new key goes at the end. */
  lemma {:induction false} BumpKeys(t: Tally, key: string)
    ensures Keys(Bump(t, key)) == if key in Keys(t) then Keys(t) else Keys(t) + [key]
  {
    if |t| > 0 {
      if t[0].0 == key {
        assert ([(key, t[0].1 + 1)] + t[1..])[1..] == t[1..];
      } else {
        BumpKeys(t[1..], key);
        assert ([t[0]] + Bump(t[1..], key))[1..] == Bump(t[1..], key);
        assert key in Keys(t) <==> key in Keys(t[1..]);
      }
    }
  }

  /** `services.reduce(...)` from the empty object. */
  function TopServiceTypes(services: seq<Listing>): Tally {
    if |services| == 0 then []
    else Bump(TopServiceTypes(services[..|services| - 1]), TypeKey(services[|services| - 1]))
  }

  function Total(t: Tally): nat {
    if |t| == 0 then 0 else t[0].1 + Total(t[1..])
  }

  /** Services of type `key`. */
  predicate OfType(key: string, l: Listing) {
    TypeKey(l) == key
  }

  /** Each key of the tally counts the services of that type. */
  lemma {:induction false} TallyCounts(services: seq<Listing>, key: string)
    ensures Lookup(TopServiceTypes(services), key) == Count(services, l => OfType(key, l))
  {
    if |services| > 0 {
      var n := |services| - 1;
      var prefix, last := services[..n], services[n];
      TallyCounts(prefix, key);
      BumpLookup(TopServiceTypes(prefix), TypeKey(last), key);
      CountSnoc(prefix, last, l => OfType(key, l));
      assert services == prefix + [last];
    }
  }

  /** Some service has type `k`. */
  predicate HasType(services: seq<Listing>, k: string) {
    exists l :: l in services && TypeKey(l) == k
  }

  lemma HasTypeSnoc(prefix: seq<Listing>, last: Listing, k: string)
    ensures HasType(prefix + [last], k) <==> HasType(prefix, k) || TypeKey(last) == k
  {
    var s := prefix + [last];
    if TypeKey(last) == k {
      assert last in s;
    }
    if HasType(prefix, k) {
      var l :| l in prefix && TypeKey(l) == k;
      assert l in s;
    }
    if HasType(s, k) {
      var l :| l in s && TypeKey(l) == k;
      assert l in prefix || l == last;
    }
  }

  /** The keys are the distinct types in order of first appearance: no key
      twice, and a key is present exactly when some service has that type. */
  lemma {:induction false} TallyKeys(services: seq<Listing>)
    ensures NoDup(Keys(TopServiceTypes(services)))
    ensures forall k :: k in Keys(TopServiceTypes(services)) <==> HasType(services, k)
  {
    if |services| > 0 {
      var n := |services| - 1;
      var prefix, last := services[..n], services[n];
      TallyKeys(prefix);
      BumpKeys(TopServiceTypes(prefix), TypeKey(last));
      assert services == prefix + [last];
      forall k ensures HasType(services, k) <==> HasType(prefix, k) || TypeKey(last) == k {
        HasTypeSnoc(prefix, last, k);
      }
      var ks := Keys(TopServiceTypes(prefix));
      if TypeKey(last) !in ks {
        NoDupSnoc(ks, TypeKey(last));
      }
    }
  }

  /** The counts add up to the number of services. */
  lemma {:induction false} TallyTotal(services: seq<Listing>)
    ensures Total(TopServiceTypes(services)) == |services|
  {
    if |services| > 0 {
      var n := |services| - 1;
      TallyTotal(services[..n]);
      BumpTotal(TopServiceTypes(services[..n]), TypeKey(services[n]));
    }
  }

  lemma {:induction false} BumpTotal(t: Tally, key: string)
    ensures Total(Bump(t, key)) == Total(t) + 1
  {
    if |t| > 0 {
      if t[0].0 == key {
        assert ([(key, t[0].1 + 1)] + t[1..])[1..] == t[1..];
      } else {
        BumpTotal(t[1..], key);
        assert ([t[0]] + Bump(t[1..], key))[1..] == Bump(t[1..], key);
      }
    }
  }
}
