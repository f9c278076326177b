// Ordering capability candidates by price while keeping measured failover order
// (contextual_orchestrator/cost_router.py, _cheapest_capability_candidate and
// _cost_ordered_capability_candidates).

module CostOrdering {
  import opened Prelude
  import opened StableSort

  datatype Candidate = Candidate(id: string, provider: string, model: string)

  datatype PriceEntry = PriceEntry(promptPricePer1k: real, currencyCode: string)

  // What the coordinator consults: the price table, the currency test against the
  // default currency, and the posterior mean each endpoint reports.
  datatype Evidence = Evidence(
    price: (string, string) -> Option<PriceEntry>,
    comparableCurrency: string -> bool,
    successPosteriorMean: string -> real)

  predicate Healthy(c: Candidate, e: Evidence) {
    (e.successPosteriorMean)(c.id) >= 0.5
  }

  function ComparablePrice(c: Candidate, e: Evidence): Option<real> {
    match (e.price)(c.provider, c.model)
    case None => None
    case Some(entry) => if (e.comparableCurrency)(entry.currencyCode) then Some(entry.promptPricePer1k) else None
  }

  predicate Priced(c: Candidate, e: Evidence) {
    ComparablePrice(c, e).Some?
  }

  // The order `CostOrder` sorts by; only ever consulted between priced candidates.
  predicate NotDearer(a: Candidate, b: Candidate, e: Evidence) {
    match (ComparablePrice(a, e), ComparablePrice(b, e))
    case (Some(x), Some(y)) => x <= y
    case (Some(_), None) => true
    case (None, Some(_)) => false
    case (None, None) => true
  }

  // Said of the price table itself: the candidate's entry is in comparable currency, at this price.
  ghost predicate PricedAt(c: Candidate, price: real, e: Evidence) {
    && (e.price)(c.provider, c.model).Some?
    && (e.comparableCurrency)((e.price)(c.provider, c.model).value.currencyCode)
    && (e.price)(c.provider, c.model).value.promptPricePer1k == price
  }

  function CandidateId(): Candidate -> string { (c: Candidate) => c.id }

  ghost predicate DistinctIds(s: seq<Candidate>) {
    DistinctBy(CandidateId(), s)
  }

  // The tests and the order, named once so that every filter and sort uses the same one.
  function IsHealthy(e: Evidence): Candidate -> bool { c => Healthy(c, e) }
  function IsUnhealthy(e: Evidence): Candidate -> bool { c => !Healthy(c, e) }
  function IsPriced(e: Evidence): Candidate -> bool { c => Priced(c, e) }
  function IsUnpriced(e: Evidence): Candidate -> bool { c => !Priced(c, e) }
  function HasOtherId(id: string): Candidate -> bool { (c: Candidate) => c.id != id }
  function IsNotIn(ids: set<string>): Candidate -> bool { (c: Candidate) => c.id !in ids }
  function ByPrice(e: Evidence): (Candidate, Candidate) -> bool { (a, b) => NotDearer(a, b, e) }

  // The order the coordinator promises: healthy and priced by price, then healthy without a
  // comparable price in rank order, then unhealthy in rank order.
  function CostOrder(candidates: seq<Candidate>, e: Evidence): seq<Candidate> {
    var healthy := Filter(IsHealthy(e), candidates);
    if healthy == [] then candidates
    else PriceOrder(healthy, e) + Filter(IsUnhealthy(e), candidates)
  }

  function PriceOrder(healthy: seq<Candidate>, e: Evidence): seq<Candidate> {
    Sort(Filter(IsPriced(e), healthy), ByPrice(e)) + Filter(IsUnpriced(e), healthy)
  }

  // ----- the two methods ------------------------------------------------------

  method CheapestCapabilityCandidate(candidates: seq<Candidate>, e: Evidence)
      returns (best: Candidate, ghost at: nat)
    requires candidates != []
    // no priced candidate is cheaper, and an unpriced one is chosen only when none is priced
    ensures best in candidates
    ensures forall c, p: real :: c in candidates && PricedAt(c, p, e) ==> exists q: real :: PricedAt(best, q, e) && q <= p
    ensures forall c :: c in candidates && Priced(c, e) ==> Priced(best, e) && NotDearer(best, c, e)
    ensures (forall c :: c in candidates ==> !Priced(c, e)) ==> best == candidates[0]
    // and it is the first such candidate
    ensures at < |candidates| && best == candidates[at]
    ensures (forall i :: 0 <= i < |candidates| ==> !Priced(candidates[i], e)) ==> at == 0
    ensures (exists i :: 0 <= i < |candidates| && Priced(candidates[i], e)) ==> FirstCheapest(candidates, at, e)
  {
    var found: Option<(Candidate, real)> := None;
    at := 0;
    var i := 0;
    while i < |candidates|
      invariant 0 <= i <= |candidates|
      invariant found.None? ==> at == 0 && forall j :: 0 <= j < i ==> !Priced(candidates[j], e)
      invariant found.Some? ==>
        && at < i && found.value.0 == candidates[at] && ComparablePrice(candidates[at], e) == Some(found.value.1)
        && (forall j :: 0 <= j < at && Priced(candidates[j], e) ==> ComparablePrice(candidates[j], e).value > found.value.1)
        && (forall j :: at <= j < i && Priced(candidates[j], e) ==> ComparablePrice(candidates[j], e).value >= found.value.1)
    {
      match ComparablePrice(candidates[i], e) {
        case None =>
        case Some(price) =>
          if found.None? || price < found.value.1 {
            found := Some((candidates[i], price));
            at := i;
          }
      }
      i := i + 1;
    }
    forall c, p: real | c in candidates && PricedAt(c, p, e) ensures found.Some? && PricedAt(candidates[at], found.value.1, e) && found.value.1 <= p {
      ComparablePriceMeans(c, p, e);
      var j :| 0 <= j < |candidates| && candidates[j] == c;
      assert Priced(candidates[j], e);
    }
    if found.None? { return candidates[0], 0; }
    return found.value.0, at;
  }

  // The candidate at `at` is the first of the lowest-priced ones.
  ghost predicate FirstCheapest(s: seq<Candidate>, at: nat, e: Evidence) {
    && at < |s| && Priced(s[at], e)
    && (forall j :: 0 <= j < at && Priced(s[j], e) ==> ComparablePrice(s[j], e).value > ComparablePrice(s[at], e).value)
    && (forall j :: at <= j < |s| && Priced(s[j], e) ==> ComparablePrice(s[j], e).value >= ComparablePrice(s[at], e).value)
  }

  method CostOrderedCapabilityCandidates(candidates: seq<Candidate>, e: Evidence) returns (ordered: seq<Candidate>)
    requires DistinctIds(candidates)
    ensures ordered == CostOrder(candidates, e)
  {
    hide PriceOrder, Filter;
    var healthy := Filter(IsHealthy(e), candidates);
    if healthy == [] { return candidates; }
    FilterKeepsDistinct(CandidateId(), IsHealthy(e), candidates);
    ordered := [];
    var remaining := healthy;
    while remaining != []
      invariant DistinctIds(remaining)
      invariant ordered + PriceOrder(remaining, e) == PriceOrder(healthy, e)
      decreases |remaining|
    {
      var cheapest, at := CheapestCapabilityCandidate(remaining, e);
      CheapestLeads(remaining, at, e);
      RemoveById(remaining, at);
      var next := Filter(HasOtherId(cheapest.id), remaining);
      assert ordered + ([cheapest] + PriceOrder(next, e)) == (ordered + [cheapest]) + PriceOrder(next, e);
      ordered := ordered + [cheapest];
      remaining := next;
    }
    PriceOrderOfNothing(e);
    UnhealthyById(candidates, e);
    var healthyIds := set h | h in healthy :: h.id;
    ordered := ordered + Filter(IsNotIn(healthyIds), candidates);
  }

  // ----- lemmas ----------------------------------------------------------------

  lemma ComparablePriceMeans(c: Candidate, price: real, e: Evidence)
    ensures ComparablePrice(c, e) == Some(price) <==> PricedAt(c, price, e)
  {
  }

  lemma ByPriceIsTotalPreorder(e: Evidence)
    ensures TotalPreorder(ByPrice(e))
  {
  }

  lemma PriceOrderOfNothing(e: Evidence)
    ensures PriceOrder([], e) == []
  {
  }

  // Dropping one id from a list of distinct ids drops exactly that position.
  lemma RemoveById(s: seq<Candidate>, at: nat)
    requires DistinctIds(s) && at < |s|
    ensures Filter(HasOtherId(s[at].id), s) == s[..at] + s[at + 1..]
    ensures DistinctIds(s[..at] + s[at + 1..])
  {
    hide Filter;
    FilterAround(HasOtherId(s[at].id), s, at);
    FilterKeepsDistinct(CandidateId(), HasOtherId(s[at].id), s);
    FilterAll(HasOtherId(s[at].id), s[..at]);
    FilterAll(HasOtherId(s[at].id), s[at + 1..]);
  }

  // Taking the chosen candidate off the front is one step of the promised order.
  lemma CheapestLeads(s: seq<Candidate>, at: nat, e: Evidence)
    requires at < |s|
    requires (forall i :: 0 <= i < |s| ==> !Priced(s[i], e)) ==> at == 0
    requires (exists i :: 0 <= i < |s| && Priced(s[i], e)) ==> FirstCheapest(s, at, e)
    ensures PriceOrder(s, e) == [s[at]] + PriceOrder(s[..at] + s[at + 1..], e)
  {
    hide Filter, Sort;
    FilterAround(IsPriced(e), s, at);
    FilterAround(IsUnpriced(e), s, at);
    if Priced(s[at], e) {
      var before, after := Filter(IsPriced(e), s[..at]), Filter(IsPriced(e), s[at + 1..]);
      FilterMembers(IsPriced(e), s[..at]);
      FilterMembers(IsPriced(e), s[at + 1..]);
      var all := before + [s[at]] + after;
      var k := |before|;
      assert all[..k] + all[k + 1..] == before + after;
      forall i | 0 <= i < k ensures !ByPrice(e)(all[i], all[k]) { assert all[i] in before; }
      forall i | k <= i < |all| ensures ByPrice(e)(all[k], all[i]) { assert i == k || all[i] in after; }
      ByPriceIsTotalPreorder(e);
      FirstMinimumLeads(all, k, ByPrice(e));
    } else {
      assert at == 0;
      FilterNone(IsPriced(e), s[1..]);
      EmptyPrefix(s, e);
    }
  }

  lemma EmptyPrefix(s: seq<Candidate>, e: Evidence)
    ensures s[..0] == [] && Filter(IsPriced(e), s[..0]) == [] && Filter(IsUnpriced(e), s[..0]) == []
    ensures Sort([], ByPrice(e)) == []
  {
  }

  lemma UnhealthyById(s: seq<Candidate>, e: Evidence)
    requires DistinctIds(s)
    ensures Filter(IsNotIn(set h | h in Filter(IsHealthy(e), s) :: h.id), s) == Filter(IsUnhealthy(e), s)
  {
    var healthy := Filter(IsHealthy(e), s);
    var ids := set h | h in healthy :: h.id;
    FilterMembers(IsHealthy(e), s);
    FilterCongruent(IsNotIn(ids), IsUnhealthy(e), s);
  }

  // The result has the same candidates as the input, and is the input when none is healthy.
  lemma CostOrderIsPermutation(s: seq<Candidate>, e: Evidence)
    ensures multiset(CostOrder(s, e)) == multiset(s)
    ensures (forall c :: c in s ==> (e.successPosteriorMean)(c.id) < 0.5) ==> CostOrder(s, e) == s
  {
    var healthy := Filter(IsHealthy(e), s);
    FilterMembers(IsHealthy(e), s);
    FilterSplits(IsHealthy(e), IsUnhealthy(e), s);
    FilterSplits(IsPriced(e), IsUnpriced(e), healthy);
    SortPermutes(Filter(IsPriced(e), healthy), ByPrice(e));
    if healthy != [] { assert healthy[0] in healthy; }
  }

  // Position by position: who may precede whom in the result.
  lemma CostOrderRanks(s: seq<Candidate>, e: Evidence, i: nat, j: nat)
    requires exists c :: c in s && (e.successPosteriorMean)(c.id) >= 0.5
    requires i < j < |CostOrder(s, e)|
    ensures Precedes(CostOrder(s, e)[i], CostOrder(s, e)[j], e)
  {
    hide Filter, Sort;
    var healthy, unhealthy := Filter(IsHealthy(e), s), Filter(IsUnhealthy(e), s);
    var priced, unpriced := Filter(IsPriced(e), healthy), Filter(IsUnpriced(e), healthy);
    var sorted := Sort(priced, ByPrice(e));
    FilterMembers(IsHealthy(e), s);
    FilterMembers(IsUnhealthy(e), s);
    FilterMembers(IsPriced(e), healthy);
    FilterMembers(IsUnpriced(e), healthy);
    ByPriceIsTotalPreorder(e);
    SortSorts(priced, ByPrice(e));
    SortPermutes(priced, ByPrice(e));
    var order := sorted + unpriced + unhealthy;
    assert order == CostOrder(s, e);
    PartOf(sorted, unpriced, unhealthy, i);
    PartOf(sorted, unpriced, unhealthy, j);
    forall c | c in sorted ensures c in priced { assert c in multiset(sorted); }
    if j < |sorted| { assert ByPrice(e)(sorted[i], sorted[j]); }
    forall p: real | PricedAt(order[j], p, e) && Healthy(order[j], e)
      ensures PricedAt(order[i], ComparablePrice(order[i], e).value, e) && ComparablePrice(order[i], e).value <= p
    {
      ComparablePriceMeans(order[j], p, e);
      ComparablePriceMeans(order[i], ComparablePrice(order[i], e).value, e);
    }
  }

  // A posterior mean of at least one half comes before any lower one, and among those a
  // comparable price before any higher one and before none.
  ghost predicate Precedes(a: Candidate, b: Candidate, e: Evidence) {
    (e.successPosteriorMean)(b.id) >= 0.5 ==>
      && (e.successPosteriorMean)(a.id) >= 0.5
      && forall p: real :: PricedAt(b, p, e) ==> exists q: real :: PricedAt(a, q, e) && q <= p
  }

  lemma PartOf(x: seq<Candidate>, y: seq<Candidate>, z: seq<Candidate>, i: nat)
    requires i < |x + y + z|
    ensures if i < |x| then (x + y + z)[i] in x
            else if i < |x| + |y| then (x + y + z)[i] in y else (x + y + z)[i] in z
  {
  }

  // Of one class: both below one half, or both not and of one comparable price or of none.
  predicate SameRank(a: Candidate, b: Candidate, e: Evidence) {
    && ((e.successPosteriorMean)(a.id) >= 0.5 <==> (e.successPosteriorMean)(b.id) >= 0.5)
    && ((e.successPosteriorMean)(a.id) >= 0.5 ==> ComparablePrice(a, e) == ComparablePrice(b, e))
  }

  function RankedWith(pivot: Candidate, e: Evidence): Candidate -> bool {
    c => SameRank(c, pivot, e)
  }

  // Ties keep their rank: candidates of one class and price stay in input order.
  lemma CostOrderKeepsTies(s: seq<Candidate>, e: Evidence, pivot: Candidate)
    ensures Filter(RankedWith(pivot, e), CostOrder(s, e)) == Filter(RankedWith(pivot, e), s)
  {
    hide Filter, PriceOrder;
    var healthy, unhealthy := Filter(IsHealthy(e), s), Filter(IsUnhealthy(e), s);
    var tied := RankedWith(pivot, e);
    if healthy != [] {
      FilterMembers(IsHealthy(e), s);
      FilterMembers(IsUnhealthy(e), s);
      PriceOrderMembers(healthy, e);
      FilterAppend(tied, PriceOrder(healthy, e), unhealthy);
      if Healthy(pivot, e) {
        PriceOrderKeepsTies(healthy, e, pivot);
        FilterTwice(tied, IsHealthy(e), s);
        forall k | 0 <= k < |unhealthy| ensures !tied(unhealthy[k]) { assert unhealthy[k] in unhealthy; }
        FilterNone(tied, unhealthy);
      } else {
        FilterTwice(tied, IsUnhealthy(e), s);
        forall k | 0 <= k < |PriceOrder(healthy, e)| ensures !tied(PriceOrder(healthy, e)[k]) {
          assert PriceOrder(healthy, e)[k] in healthy;
        }
        FilterNone(tied, PriceOrder(healthy, e));
      }
    }
  }

  lemma PriceOrderMembers(healthy: seq<Candidate>, e: Evidence)
    ensures forall k :: 0 <= k < |PriceOrder(healthy, e)| ==> PriceOrder(healthy, e)[k] in healthy
  {
    hide Filter, Sort;
    var priced, unpriced := Filter(IsPriced(e), healthy), Filter(IsUnpriced(e), healthy);
    var sorted := Sort(priced, ByPrice(e));
    FilterMembers(IsPriced(e), healthy);
    FilterMembers(IsUnpriced(e), healthy);
    SortPermutes(priced, ByPrice(e));
    forall c | c in sorted ensures c in priced { assert c in multiset(sorted); }
    forall k | 0 <= k < |sorted + unpriced| ensures (sorted + unpriced)[k] in healthy {
      assert (sorted + unpriced)[k] in sorted || (sorted + unpriced)[k] in unpriced;
    }
  }

  lemma PriceOrderKeepsTies(healthy: seq<Candidate>, e: Evidence, pivot: Candidate)
    requires Healthy(pivot, e) && forall c :: c in healthy ==> Healthy(c, e)
    ensures Filter(RankedWith(pivot, e), PriceOrder(healthy, e)) == Filter(RankedWith(pivot, e), healthy)
  {
    hide Filter, Sort;
    var priced, unpriced := Filter(IsPriced(e), healthy), Filter(IsUnpriced(e), healthy);
    var sorted := Sort(priced, ByPrice(e));
    var tied, equivalent := RankedWith(pivot, e), TiedWith(ByPrice(e), pivot);
    FilterMembers(IsPriced(e), healthy);
    FilterMembers(IsUnpriced(e), healthy);
    SortPermutes(priced, ByPrice(e));
    forall c | c in sorted ensures c in priced { assert c in multiset(sorted); }
    FilterAppend(tied, sorted, unpriced);
    if Priced(pivot, e) {
      ByPriceIsTotalPreorder(e);
      SortIsStable(priced, ByPrice(e), pivot);
      forall k | 0 <= k < |sorted| ensures tied(sorted[k]) <==> equivalent(sorted[k]) { assert sorted[k] in sorted; }
      forall k | 0 <= k < |priced| ensures tied(priced[k]) <==> equivalent(priced[k]) { assert priced[k] in priced; }
      FilterCongruent(tied, equivalent, sorted);
      FilterCongruent(tied, equivalent, priced);
      forall k | 0 <= k < |unpriced| ensures !tied(unpriced[k]) { assert unpriced[k] in unpriced; }
      FilterNone(tied, unpriced);
      FilterTwice(tied, IsPriced(e), healthy);
    } else {
      forall k | 0 <= k < |sorted| ensures !tied(sorted[k]) { assert sorted[k] in sorted; }
      FilterNone(tied, sorted);
      FilterTwice(tied, IsUnpriced(e), healthy);
    }
  }
}
