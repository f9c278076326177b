// Price-gated, group-diverse selection of discovered models
// (contextual_orchestrator/provider_bootstrap.py, select_model_group_diverse_models).

module ModelSelection {
  import opened Prelude
  import opened StableSort

  datatype Model = Model(
    providerName: string, credentialName: string, modelId: string,
    promptPrice: Option<real>, completionPrice: Option<real>, currencyCode: string, isFree: bool)

  datatype Identity = Identity(providerName: string, credentialName: string, modelId: string)

  // The leading part of the sort key: 0 for known comparable cost, 1 for unknown.
  datatype Evidence = Evidence(rank: nat, cost: real)

  datatype Key = Key(evidence: Evidence, providerName: string, modelId: string)

  // Predicates owned by other components: the serving policy, the currency test against
  // US dollars, and the group name, which is computed from the model id alone.
  datatype Policy = Policy(
    serves: Model -> bool, comparableCurrency: string -> bool, groupName: string -> string)

  datatype BootstrapError = NonPositiveLimit | DiversityDisplacesCheaper | AmbiguousBoundary

  function IdentityOf(m: Model): Identity {
    Identity(m.providerName, m.credentialName, m.modelId)
  }

  function EvidenceOf(m: Model, policy: Policy): Evidence {
    if m.promptPrice.Some? && m.completionPrice.Some? && (policy.comparableCurrency)(m.currencyCode)
    then Evidence(0, m.promptPrice.value + m.completionPrice.value)
    else if m.isFree then Evidence(0, 0.0)
    else Evidence(1, 0.0)  // unknown: one shared infinite cost
  }

  function KnownCostSortKey(m: Model, policy: Policy): Key {
    Key(EvidenceOf(m, policy), m.providerName, m.modelId)
  }

  function GroupOf(m: Model, policy: Policy): string {
    (policy.groupName)(m.modelId)
  }

  // ----- orders -------------------------------------------------------------------

  predicate TextLe(a: string, b: string) {
    a == "" || (b != "" && (a[0] < b[0] || (a[0] == b[0] && TextLe(a[1..], b[1..]))))
  }

  predicate EvidenceLess(a: Evidence, b: Evidence) {
    a.rank < b.rank || (a.rank == b.rank && a.cost < b.cost)
  }

  predicate KeyLe(a: Key, b: Key) {
    EvidenceLess(a.evidence, b.evidence)
    || (a.evidence == b.evidence
        && ((a.providerName != b.providerName && TextLe(a.providerName, b.providerName))
            || (a.providerName == b.providerName && TextLe(a.modelId, b.modelId))))
  }

  function ByKey(policy: Policy): (Model, Model) -> bool {
    (a, b) => KeyLe(KnownCostSortKey(a, policy), KnownCostSortKey(b, policy))
  }

  lemma {:induction false} TextLeTotal(a: string, b: string)
    ensures TextLe(a, b) || TextLe(b, a)
    ensures TextLe(a, b) && TextLe(b, a) ==> a == b
  {
    if a != "" && b != "" && a[0] == b[0] {
      TextLeTotal(a[1..], b[1..]);
      assert a == [a[0]] + a[1..] && b == [b[0]] + b[1..];
    }
  }

  lemma {:induction false} TextLeTransitive(a: string, b: string, c: string)
    requires TextLe(a, b) && TextLe(b, c)
    ensures TextLe(a, c)
  {
    if a != "" && a[0] == b[0] == c[0] { TextLeTransitive(a[1..], b[1..], c[1..]); }
  }

  lemma KeyLeTotal(a: Key, b: Key)
    ensures KeyLe(a, b) || KeyLe(b, a)
    ensures KeyLe(a, b) && KeyLe(b, a) ==> a == b
  {
    TextLeTotal(a.providerName, b.providerName);
    TextLeTotal(a.modelId, b.modelId);
  }

  lemma KeyLeTransitive(a: Key, b: Key, c: Key)
    requires KeyLe(a, b) && KeyLe(b, c)
    ensures KeyLe(a, c)
  {
    if a.evidence == b.evidence == c.evidence {
      if TextLe(a.providerName, b.providerName) && TextLe(b.providerName, c.providerName) {
        TextLeTransitive(a.providerName, b.providerName, c.providerName);
        TextLeTotal(a.providerName, b.providerName);
      }
      if TextLe(a.modelId, b.modelId) && TextLe(b.modelId, c.modelId) {
        TextLeTransitive(a.modelId, b.modelId, c.modelId);
      }
    }
  }

  lemma ByKeyIsTotalPreorder(policy: Policy)
    ensures TotalPreorder(ByKey(policy))
  {
    forall x: Model, y: Model ensures ByKey(policy)(x, y) || ByKey(policy)(y, x) {
      KeyLeTotal(KnownCostSortKey(x, policy), KnownCostSortKey(y, policy));
    }
    forall x: Model, y: Model, z: Model | ByKey(policy)(x, y) && ByKey(policy)(y, z) ensures ByKey(policy)(x, z) {
      KeyLeTransitive(KnownCostSortKey(x, policy), KnownCostSortKey(y, policy), KnownCostSortKey(z, policy));
    }
  }

  // ----- what the order says about prices --------------------------------------------

  // The cost of a row: its two prices together where both are given in comparable currency,
  // else nothing for a free row; any other row has none.
  ghost predicate Costs(m: Model, cost: real, policy: Policy) {
    if m.promptPrice.Some? && m.completionPrice.Some? && (policy.comparableCurrency)(m.currencyCode)
    then m.promptPrice.value + m.completionPrice.value == cost
    else m.isFree && cost == 0.0
  }

  // Evidence compares those costs, and puts every row with one before every row without.
  lemma EvidenceComparesCosts(a: Model, b: Model, policy: Policy, p: real, q: real)
    ensures Costs(a, p, policy) && Costs(b, q, policy) ==> (EvidenceLess(EvidenceOf(a, policy), EvidenceOf(b, policy)) <==> p < q)
    ensures Costs(a, p, policy) && Costs(b, q, policy) ==> (EvidenceOf(a, policy) == EvidenceOf(b, policy) <==> p == q)
    ensures Costs(a, p, policy) && (forall r: real :: !Costs(b, r, policy)) ==>
      EvidenceLess(EvidenceOf(a, policy), EvidenceOf(b, policy))
    ensures (forall r: real :: !Costs(a, r, policy)) ==> !EvidenceLess(EvidenceOf(a, policy), EvidenceOf(b, policy))
  {
    if forall r: real :: !Costs(a, r, policy) { HasNoCost(a, policy); }
    if forall r: real :: !Costs(b, r, policy) { HasNoCost(b, policy); }
  }

  lemma HasNoCost(m: Model, policy: Policy)
    requires forall r: real :: !Costs(m, r, policy)
    ensures EvidenceOf(m, policy) == Evidence(1, 0.0)
  {
    if m.promptPrice.Some? && m.completionPrice.Some? { assert !Costs(m, m.promptPrice.value + m.completionPrice.value, policy); }
    assert !Costs(m, 0.0, policy);
  }

  // ----- the selection as a function -------------------------------------------------

  ghost predicate DistinctIdentities(s: seq<Model>) {
    forall i, j :: 0 <= i < j < |s| ==> IdentityOf(s[i]) != IdentityOf(s[j])
  }

  // One assignment into the identity-keyed dictionary: the first position, the last value.
  function Put(unique: seq<Model>, m: Model): (r: seq<Model>)
    ensures DistinctIdentities(unique) ==> DistinctIdentities(r)
  {
    if exists k :: 0 <= k < |unique| && IdentityOf(unique[k]) == IdentityOf(m)
    then var k := PositionOf(unique, IdentityOf(m)); unique[k := m]
    else unique + [m]
  }

  function PositionOf(s: seq<Model>, id: Identity): (k: nat)
    requires exists k :: 0 <= k < |s| && IdentityOf(s[k]) == id
    ensures k < |s| && IdentityOf(s[k]) == id
  {
    if IdentityOf(s[0]) == id then 0 else 1 + PositionOf(s[1..], id)
  }

  function Unique(discovered: seq<Model>): (r: seq<Model>)
    ensures DistinctIdentities(r)
  {
    if discovered == [] then []
    else Put(Unique(discovered[..|discovered| - 1]), discovered[|discovered| - 1])
  }

  function Serves(policy: Policy): Model -> bool { (m: Model) => (policy.serves)(m) }
  function NotAmong(ids: set<Identity>): Model -> bool { (m: Model) => IdentityOf(m) !in ids }

  function Ordered(discovered: seq<Model>, policy: Policy): seq<Model> {
    Sort(Unique(Filter(Serves(policy), discovered)), ByKey(policy))
  }

  // The first row of each group not seen yet, at most `room` of them.
  function PickGroups(ordered: seq<Model>, seen: set<string>, room: nat, policy: Policy): seq<Model> {
    if ordered == [] || room == 0 then []
    else
      var group := GroupOf(ordered[0], policy);
      if group in seen then PickGroups(ordered[1..], seen, room, policy)
      else [ordered[0]] + PickGroups(ordered[1..], seen + {group}, room - 1, policy)
  }

  function Identities(s: seq<Model>): set<Identity> {
    set m | m in s :: IdentityOf(m)
  }

  function Take(s: seq<Model>, n: nat): seq<Model> {
    if n <= |s| then s[..n] else s
  }

  function FillUp(picked: seq<Model>, ordered: seq<Model>, limit: nat): seq<Model>
    requires |picked| <= limit
  {
    picked + Take(Filter(NotAmong(Identities(picked)), ordered), limit - |picked|)
  }

  function IdentitySeq(s: seq<Model>): seq<Identity> {
    seq(|s|, i requires 0 <= i < |s| => IdentityOf(s[i]))
  }

  // _require_unambiguous_model_group_boundary
  function CheckBoundary(ordered: seq<Model>, selected: seq<Model>, policy: Policy): (r: Result<seq<Model>, BootstrapError>)
    ensures r.Err? ==> r.error in {DiversityDisplacesCheaper, AmbiguousBoundary}
  {
    if IdentitySeq(selected) != IdentitySeq(Take(ordered, |selected|)) then Err(DiversityDisplacesCheaper)
    else if |selected| >= |ordered| then Ok(selected)
    else
      if SelectedEvidence(selected, policy) * ExcludedEvidence(ordered, selected, policy) != {} then Err(AmbiguousBoundary) else Ok(selected)
  }

  function SelectedEvidence(selected: seq<Model>, policy: Policy): set<Evidence> {
    set m | m in selected :: EvidenceOf(m, policy)
  }

  function ExcludedEvidence(ordered: seq<Model>, selected: seq<Model>, policy: Policy): set<Evidence> {
    set m | m in ordered && IdentityOf(m) !in Identities(selected) :: EvidenceOf(m, policy)
  }

  function Select(discovered: seq<Model>, limit: int, policy: Policy): Result<seq<Model>, BootstrapError> {
    if limit < 1 then Err(NonPositiveLimit)
    else
      var ordered := Ordered(discovered, policy);
      var picked := PickGroups(ordered, {}, limit, policy);
      PickCount(ordered, {}, limit, policy);
      CheckBoundary(ordered, if |picked| == limit then picked else FillUp(picked, ordered, limit), policy)
  }

  lemma {:induction false} PickCount(ordered: seq<Model>, seen: set<string>, room: nat, policy: Policy)
    ensures |PickGroups(ordered, seen, room, policy)| <= room
    ensures |PickGroups(ordered, seen, room, policy)| <= |ordered|
    ensures forall m :: m in PickGroups(ordered, seen, room, policy) ==> m in ordered
  {
    if ordered != [] && room > 0 {
      var group := GroupOf(ordered[0], policy);
      if group in seen { PickCount(ordered[1..], seen, room, policy); }
      else { PickCount(ordered[1..], seen + {group}, room - 1, policy); }
    }
  }

  // ----- the selection as the source runs it ------------------------------------------

  method SelectModelGroupDiverseModels(discovered: seq<Model>, limit: int, policy: Policy)
      returns (result: Result<seq<Model>, BootstrapError>)
    ensures result == Select(discovered, limit, policy)
    ensures result == Err(NonPositiveLimit) <==> limit < 1
  {
    hide Filter, Sort, CheckBoundary, PickGroups, FillUp;
    if limit < 1 { return Err(NonPositiveLimit); }
    var unique := CollectUnique(discovered, policy);
    var ordered := Sort(unique, ByKey(policy));
    var selected := FirstOfEachGroup(ordered, limit, policy);
    if |selected| < limit {
      selected := FillToLimit(ordered, selected, limit);
    }
    return CheckBoundary(ordered, selected, policy);
  }

  method CollectUnique(discovered: seq<Model>, policy: Policy) returns (unique: seq<Model>)
    ensures unique == Unique(Filter(Serves(policy), discovered))
  {
    hide Filter, Put;
    unique := [];
    FilterNothing(Serves(policy));
    assert discovered[..0] == [];
    for i := 0 to |discovered|
      invariant unique == Unique(Filter(Serves(policy), discovered[..i]))
    {
      var model := discovered[i];
      FilterSnoc(Serves(policy), discovered[..i], model);
      assert discovered[..i + 1] == discovered[..i] + [model];
      if !(policy.serves)(model) { continue; }
      ghost var before := Filter(Serves(policy), discovered[..i]);
      assert (before + [model])[..|before|] == before;
      unique := Put(unique, model);
    }
    assert discovered[..|discovered|] == discovered;
  }

  method FirstOfEachGroup(ordered: seq<Model>, limit: nat, policy: Policy) returns (selected: seq<Model>)
    requires limit >= 1
    ensures selected == PickGroups(ordered, {}, limit, policy) && |selected| <= limit
  {
    selected := [];
    var seen: set<string> := {};
    ghost var picked := PickGroups(ordered, {}, limit, policy);
    assert ordered[0..] == ordered;
    for i := 0 to |ordered|
      invariant |selected| < limit
      invariant selected + PickGroups(ordered[i..], seen, limit - |selected|, policy) == picked
    {
      var model := ordered[i];
      var group := GroupOf(model, policy);
      assert ordered[i..][1..] == ordered[i + 1..];
      if group in seen { continue; }
      ghost var later := PickGroups(ordered[i + 1..], seen + {group}, limit - |selected| - 1, policy);
      assert selected + ([model] + later) == (selected + [model]) + later;
      selected, seen := selected + [model], seen + {group};
      if |selected| >= limit {
        assert selected + [] == selected;
        return;
      }
    }
    assert ordered[|ordered|..] == [] && selected + [] == selected;
  }

  method FillToLimit(ordered: seq<Model>, picked: seq<Model>, limit: nat) returns (selected: seq<Model>)
    requires |picked| < limit
    ensures selected == FillUp(picked, ordered, limit)
  {
    hide Filter;
    selected := picked;
    var selectedKeys := Identities(picked);
    assert ordered[0..] == ordered;
    var i := 0;
    while i < |ordered|
      invariant 0 <= i <= |ordered| && |selected| < limit
      invariant selected + Take(Filter(NotAmong(selectedKeys), ordered[i..]), limit - |selected|)
             == FillUp(picked, ordered, limit)
    {
      var model := ordered[i];
      i := i + 1;
      assert ordered[i - 1..] == [model] + ordered[i..];
      ghost var later := Filter(NotAmong(selectedKeys), ordered[i..]);
      FilterCons(NotAmong(selectedKeys), model, ordered[i..]);
      if IdentityOf(model) in selectedKeys { continue; }
      TakeCons(model, later, limit - |selected|);
      ghost var added := Take(later, limit - |selected| - 1);
      assert selected + ([model] + added) == (selected + [model]) + added;
      selected := selected + [model];
      if |selected| >= limit {
        assert added == [] && selected + [] == selected;
        return;
      }
    }
    FilterNothing(NotAmong(selectedKeys));
    assert ordered[i..] == [] && selected + [] == selected;
  }

  lemma FilterNothing(p: Model -> bool)
    ensures Filter(p, []) == []
  {
  }

  lemma FilterCons(p: Model -> bool, x: Model, s: seq<Model>)
    ensures Filter(p, [x] + s) == if p(x) then [x] + Filter(p, s) else Filter(p, s)
  {
    assert ([x] + s)[1..] == s;
  }

  lemma TakeCons(x: Model, s: seq<Model>, n: nat)
    requires n > 0
    ensures Take([x] + s, n) == [x] + Take(s, n - 1)
  {
  }

  // ----- the cost order ----------------------------------------------------------------

  // Of the rows with one identity the last one counts.
  lemma {:induction false} UniqueKeepsLast(s: seq<Model>, m: Model)
    ensures m in Unique(s) <==>
      exists k :: 0 <= k < |s| && s[k] == m && forall j :: k < j < |s| ==> IdentityOf(s[j]) != IdentityOf(m)
  {
    hide Put;
    if s != [] {
      var n := |s| - 1;
      var before, last := s[..n], s[n];
      UniqueKeepsLast(before, m);
      PutMembers(Unique(before), last, m);
      if m in Unique(before) && IdentityOf(m) != IdentityOf(last) {
        var k :| 0 <= k < |before| && before[k] == m && forall j :: k < j < |before| ==> IdentityOf(before[j]) != IdentityOf(m);
        assert s[k] == m && forall j :: k < j < |s| ==> IdentityOf(s[j]) != IdentityOf(m);
      }
      if k :| 0 <= k < |s| && s[k] == m && forall j :: k < j < |s| ==> IdentityOf(s[j]) != IdentityOf(m) {
        if k < n {
          assert before[k] == m && forall j :: k < j < |before| ==> IdentityOf(before[j]) != IdentityOf(m);
        }
      }
      if m == last { assert s[n] == m; }
    }
  }

  lemma PutMembers(unique: seq<Model>, x: Model, m: Model)
    requires DistinctIdentities(unique)
    ensures m in Put(unique, x) <==> m == x || (m in unique && IdentityOf(m) != IdentityOf(x))
  {
    if exists k :: 0 <= k < |unique| && IdentityOf(unique[k]) == IdentityOf(x) {
      var k := PositionOf(unique, IdentityOf(x));
      assert unique[k := x][k] == x;
      forall i | 0 <= i < |unique| && i != k ensures unique[k := x][i] == unique[i] && IdentityOf(unique[i]) != IdentityOf(x) {}
    }
  }

  // The order that selection works on: the served rows, the last of each identity, by cost
  // with unknown costs at the end, then by provider and model id.
  lemma OrderedIsCostOrder(discovered: seq<Model>, policy: Policy, i: nat, j: nat, p: real, q: real)
    requires i < j < |Ordered(discovered, policy)|
    ensures var a, b := Ordered(discovered, policy)[i], Ordered(discovered, policy)[j];
      && (policy.serves)(a) && a in discovered && IdentityOf(a) != IdentityOf(b)
      && (Costs(b, q, policy) ==> exists c :: Costs(a, c, policy))
      && (Costs(a, p, policy) && Costs(b, q, policy) ==> p <= q)
      && (EvidenceOf(a, policy) == EvidenceOf(b, policy) && a.providerName == b.providerName ==> TextLe(a.modelId, b.modelId))
      && (EvidenceOf(a, policy) == EvidenceOf(b, policy) ==> TextLe(a.providerName, b.providerName))
  {
    hide Filter, Sort, Unique;
    var served := Filter(Serves(policy), discovered);
    var a, b := Ordered(discovered, policy)[i], Ordered(discovered, policy)[j];
    OrderedFacts(discovered, policy);
    assert ByKey(policy)(a, b);
    SortPermutes(Unique(served), ByKey(policy));
    assert a in multiset(Unique(served));
    UniqueKeepsLast(served, a);
    FilterMembers(Serves(policy), discovered);
    assert a in served;
    assert Serves(policy)(a);
    EvidenceComparesCosts(a, b, policy, p, q);
    EvidenceComparesCosts(b, a, policy, q, p);
    TextLeTotal(a.providerName, b.providerName);
  }

  // Every served row is in the order unless a later row of its identity replaces it.
  lemma ServedRowsAreOrdered(discovered: seq<Model>, policy: Policy, m: Model)
    requires m in discovered && (policy.serves)(m)
    requires forall other :: other in discovered && IdentityOf(other) == IdentityOf(m) ==> other == m
    ensures m in Ordered(discovered, policy)
  {
    hide Filter, Sort, Unique;
    var served := Filter(Serves(policy), discovered);
    FilterMembers(Serves(policy), discovered);
    var k := LastPlace(served, m);
    UniqueKeepsLast(served, m);
    SortPermutes(Unique(served), ByKey(policy));
    assert m in multiset(Ordered(discovered, policy));
  }

  lemma {:induction false} LastPlace(s: seq<Model>, m: Model) returns (k: nat)
    requires m in s && forall other :: other in s && IdentityOf(other) == IdentityOf(m) ==> other == m
    ensures k < |s| && s[k] == m && forall j :: k < j < |s| ==> IdentityOf(s[j]) != IdentityOf(m)
  {
    var n := |s| - 1;
    if s[n] == m {
      k := n;
    } else {
      assert s == s[..n] + [s[n]];
      k := LastPlace(s[..n], m);
      assert s[n] in s;
    }
  }

  // ----- when it returns, and what ------------------------------------------------------

  ghost predicate GroupsDistinct(s: seq<Model>, policy: Policy) {
    forall i, j :: 0 <= i < j < |s| ==> (policy.groupName)(s[i].modelId) != (policy.groupName)(s[j].modelId)
  }

  lemma OrderedFacts(discovered: seq<Model>, policy: Policy)
    ensures DistinctIdentities(Ordered(discovered, policy))
    ensures Sorted(Ordered(discovered, policy), ByKey(policy))
  {
    var unique := Unique(Filter(Serves(policy), discovered));
    ByKeyIsTotalPreorder(policy);
    SortSorts(unique, ByKey(policy));
    SortKeepsDistinct(unique, policy);
  }

  lemma {:induction false} SortKeepsDistinct(s: seq<Model>, policy: Policy)
    requires DistinctIdentities(s)
    ensures DistinctIdentities(Sort(s, ByKey(policy)))
  {
    if s != [] {
      var rest := Sort(s[1..], ByKey(policy));
      SortKeepsDistinct(s[1..], policy);
      SortPermutes(s[1..], ByKey(policy));
      forall m | m in rest ensures IdentityOf(m) != IdentityOf(s[0]) {
        assert m in multiset(rest);
        assert m in s[1..];
      }
      InsertKeepsDistinct(s[0], rest, policy);
    }
  }

  lemma {:induction false} InsertKeepsDistinct(x: Model, s: seq<Model>, policy: Policy)
    requires DistinctIdentities(s) && forall m :: m in s ==> IdentityOf(m) != IdentityOf(x)
    ensures DistinctIdentities(Insert(x, s, ByKey(policy)))
  {
    if s != [] && !ByKey(policy)(x, s[0]) {
      var tail := Insert(x, s[1..], ByKey(policy));
      InsertKeepsDistinct(x, s[1..], policy);
      InsertPermutes(x, s[1..], ByKey(policy));
      forall m | m in tail ensures IdentityOf(m) != IdentityOf(s[0]) {
        assert m in multiset(tail);
        assert m == x || m in s[1..];
      }
    }
  }

  // The group pass takes a prefix of the cost order exactly when that prefix has no repeated group.
  lemma {:induction false} PickIsPrefixIff(ordered: seq<Model>, seen: set<string>, room: nat, policy: Policy)
    ensures var picked := PickGroups(ordered, seen, room, policy);
      && |picked| <= |ordered|
      && GroupsDistinct(picked, policy)
      && (forall m :: m in picked ==> GroupOf(m, policy) !in seen)
      && (GroupsDistinct(ordered[..|picked|], policy)
          && (forall i :: 0 <= i < |picked| ==> GroupOf(ordered[i], policy) !in seen)
          ==> picked == ordered[..|picked|])
  {
    hide GroupsDistinct;
    NoGroups(policy);
    if ordered != [] && room > 0 {
      var group := GroupOf(ordered[0], policy);
      if group in seen {
        PickIsPrefixIff(ordered[1..], seen, room, policy);
      } else {
        var later := PickGroups(ordered[1..], seen + {group}, room - 1, policy);
        PickIsPrefixIff(ordered[1..], seen + {group}, room - 1, policy);
        GroupsCons(ordered[0], later, policy);
        PrefixCons(ordered, |later|, seen, policy);
      }
    }
  }

  lemma NoGroups(policy: Policy)
    ensures GroupsDistinct([], policy)
  {
  }

  lemma GroupsCons(x: Model, s: seq<Model>, policy: Policy)
    ensures GroupsDistinct([x] + s, policy)
       <==> GroupsDistinct(s, policy) && forall i :: 0 <= i < |s| ==> GroupOf(s[i], policy) != GroupOf(x, policy)
  {
    var all := [x] + s;
    assert s == all[1..];
    if GroupsDistinct(all, policy) {
      forall i | 0 <= i < |s| ensures GroupOf(s[i], policy) != GroupOf(x, policy) {
        assert GroupOf(all[0], policy) != GroupOf(all[i + 1], policy);
      }
    }
  }

  // A prefix with no repeated and no seen group is its head before a prefix of the tail, of which the same holds.
  lemma PrefixCons(ordered: seq<Model>, p: nat, seen: set<string>, policy: Policy)
    requires p < |ordered|
    ensures ordered[..p + 1] == [ordered[0]] + ordered[1..][..p]
    ensures GroupsDistinct(ordered[..p + 1], policy) && (forall i :: 0 <= i <= p ==> GroupOf(ordered[i], policy) !in seen) ==>
      GroupsDistinct(ordered[1..][..p], policy)
    ensures GroupsDistinct(ordered[..p + 1], policy) && (forall i :: 0 <= i <= p ==> GroupOf(ordered[i], policy) !in seen) ==>
      forall i :: 0 <= i < p ==> GroupOf(ordered[1..][i], policy) !in seen + {GroupOf(ordered[0], policy)}
  {
    hide GroupsDistinct;
    var tail := ordered[1..][..p];
    assert ordered[..p + 1] == [ordered[0]] + tail;
    GroupsCons(ordered[0], tail, policy);
    forall i | 0 <= i < p ensures ordered[1..][i] == tail[i] == ordered[i + 1] {}
  }

  lemma SameIdentitiesSameRows(ordered: seq<Model>, selected: seq<Model>)
    requires DistinctIdentities(ordered) && |selected| <= |ordered|
    requires forall m :: m in selected ==> m in ordered
    requires IdentitySeq(selected) == IdentitySeq(ordered[..|selected|])
    ensures selected == ordered[..|selected|]
  {
    forall i | 0 <= i < |selected| ensures selected[i] == ordered[i] {
      assert IdentitySeq(selected)[i] == IdentitySeq(ordered[..|selected|])[i];
      assert selected[i] in selected;
      var j :| 0 <= j < |ordered| && ordered[j] == selected[i];
    }
  }

  // What the fill pass yields when the group pass took a prefix.
  lemma FillAfterPrefix(ordered: seq<Model>, p: nat, limit: nat)
    requires DistinctIdentities(ordered) && p <= |ordered| && p <= limit
    ensures FillUp(ordered[..p], ordered, limit) == Take(ordered, limit)
  {
    hide Filter, Identities, Take;
    var left, right := ordered[..p], ordered[p..];
    assert ordered == left + right;
    forall i | 0 <= i < |right| ensures NotAmong(Identities(left))(right[i]) { OutsidePrefix(ordered, p, p + i); }
    OnlyTheRest(left, right);
    TakePastPrefix(left, right, limit);
  }

  lemma OnlyTheRest(left: seq<Model>, right: seq<Model>)
    requires forall i :: 0 <= i < |right| ==> NotAmong(Identities(left))(right[i])
    ensures Filter(NotAmong(Identities(left)), left + right) == right
  {
    hide Filter;
    var ids := Identities(left);
    FilterAppend(NotAmong(ids), left, right);
    forall i | 0 <= i < |left| ensures !NotAmong(ids)(left[i]) { assert left[i] in left; }
    FilterNone(NotAmong(ids), left);
    FilterAll(NotAmong(ids), right);
    assert [] + right == right;
  }

  lemma TakePastPrefix(left: seq<Model>, right: seq<Model>, limit: nat)
    requires |left| <= limit
    ensures left + Take(right, limit - |left|) == Take(left + right, limit)
  {
  }

  // The boundary check passes a prefix exactly when cost evidence strictly rises at its end.
  lemma PrefixBoundary(ordered: seq<Model>, m: nat, policy: Policy)
    requires DistinctIdentities(ordered) && Sorted(ordered, ByKey(policy)) && m <= |ordered|
    ensures CheckBoundary(ordered, ordered[..m], policy)
         == if 0 < m < |ordered| && EvidenceOf(ordered[m - 1], policy) == EvidenceOf(ordered[m], policy)
            then Err(AmbiguousBoundary) else Ok(ordered[..m])
    ensures CheckBoundary(ordered, ordered[..m], policy).Ok? ==>
      forall i, j :: 0 <= i < m <= j < |ordered| ==>
        EvidenceLess(EvidenceOf(ordered[i], policy), EvidenceOf(ordered[j], policy))
  {
    var selected := ordered[..m];
    forall i, j | 0 <= i <= j < |ordered|
      ensures !EvidenceLess(EvidenceOf(ordered[j], policy), EvidenceOf(ordered[i], policy))
    {
      if i < j { assert ByKey(policy)(ordered[i], ordered[j]); }
    }
    if 0 < m < |ordered| && EvidenceOf(ordered[m - 1], policy) == EvidenceOf(ordered[m], policy) {
      var tie := EvidenceOf(ordered[m], policy);
      OutsidePrefix(ordered, m, m);
      assert selected[m - 1] in selected;
      assert ordered[m] in ordered;
      assert tie in SelectedEvidence(selected, policy) * ExcludedEvidence(ordered, selected, policy);
    } else if m < |ordered| {
      forall i, j | 0 <= i < m <= j < |ordered|
        ensures EvidenceLess(EvidenceOf(ordered[i], policy), EvidenceOf(ordered[j], policy))
      {
        assert !EvidenceLess(EvidenceOf(ordered[m], policy), EvidenceOf(ordered[m - 1], policy));
        assert !EvidenceLess(EvidenceOf(ordered[m - 1], policy), EvidenceOf(ordered[i], policy));
        assert !EvidenceLess(EvidenceOf(ordered[j], policy), EvidenceOf(ordered[m], policy));
      }
      PrefixMembers(ordered, m);
      forall x, y | x in selected && y in ordered && IdentityOf(y) !in Identities(selected)
        ensures EvidenceOf(x, policy) != EvidenceOf(y, policy)
      {
        var i :| 0 <= i < m && ordered[i] == x;
        var j :| 0 <= j < |ordered| && ordered[j] == y;
      }
    }
  }

  lemma OutsidePrefix(ordered: seq<Model>, m: nat, j: nat)
    requires DistinctIdentities(ordered) && m <= j < |ordered|
    ensures IdentityOf(ordered[j]) !in Identities(ordered[..m])
  {
  }

  function Groups(s: seq<Model>, policy: Policy): set<string> {
    set m | m in s :: GroupOf(m, policy)
  }

  // As many rows as there are groups to choose one of each from, up to the limit.
  function LeaderCount(ordered: seq<Model>, limit: nat, policy: Policy): nat {
    if |Groups(ordered, policy)| < limit then |Groups(ordered, policy)| else limit
  }

  // No group repeats among the leading rows of the cost order.
  ghost predicate LeadersDistinct(ordered: seq<Model>, limit: nat, policy: Policy) {
    GroupsDistinct(Take(ordered, LeaderCount(ordered, limit, policy)), policy)
  }

  // The cutoff falls between two rows of one cost.
  predicate TiedCutoff(ordered: seq<Model>, limit: nat, policy: Policy) {
    var m := |Take(ordered, limit)|;
    0 < m < |ordered| && EvidenceOf(ordered[m - 1], policy) == EvidenceOf(ordered[m], policy)
  }

  // How many groups have a row and are not among those seen.
  function Unseen(ordered: seq<Model>, seen: set<string>, policy: Policy): nat {
    |Groups(ordered, policy) - seen|
  }

  lemma FirstGroup(ordered: seq<Model>, seen: set<string>, policy: Policy)
    requires ordered != []
    ensures Unseen(ordered, seen, policy)
      == if GroupOf(ordered[0], policy) in seen then Unseen(ordered[1..], seen, policy)
         else Unseen(ordered[1..], seen + {GroupOf(ordered[0], policy)}, policy) + 1
  {
    var group, rest := GroupOf(ordered[0], policy), Groups(ordered[1..], policy);
    FirstGroupOf(ordered, policy);
    if group in seen {
      assert rest + {group} - seen == rest - seen;
    } else {
      assert rest + {group} - seen == (rest - (seen + {group})) + {group};
    }
  }

  lemma FirstGroupOf(ordered: seq<Model>, policy: Policy)
    requires ordered != []
    ensures Groups(ordered, policy) == Groups(ordered[1..], policy) + {GroupOf(ordered[0], policy)}
  {
    assert ordered == [ordered[0]] + ordered[1..];
  }

  // The group pass takes one row of each group not seen yet, while there is room.
  lemma {:induction false} PickCountsGroups(ordered: seq<Model>, seen: set<string>, room: nat, policy: Policy)
    ensures |PickGroups(ordered, seen, room, policy)|
      == if Unseen(ordered, seen, policy) < room then Unseen(ordered, seen, policy) else room
  {
    hide Unseen, GroupOf;
    if ordered == [] {
      NothingUnseen(seen, policy);
    } else if room > 0 {
      var group := GroupOf(ordered[0], policy);
      FirstGroup(ordered, seen, policy);
      if group in seen {
        PickCountsGroups(ordered[1..], seen, room, policy);
      } else {
        PickCountsGroups(ordered[1..], seen + {group}, room - 1, policy);
      }
    }
  }

  lemma NothingUnseen(seen: set<string>, policy: Policy)
    ensures Unseen([], seen, policy) == 0
  {
    assert Groups([], policy) - seen == {};
  }

  // What selection returns, in terms of the cost order alone: an error where a leading group
  // repeats, another where the cutoff is tied, and otherwise the cheapest rows up to the limit.
  lemma SelectionIsCostPrefix(discovered: seq<Model>, limit: int, policy: Policy)
    requires limit >= 1
    ensures var ordered := Ordered(discovered, policy);
      Select(discovered, limit, policy) ==
        if !LeadersDistinct(ordered, limit, policy) then Err(DiversityDisplacesCheaper)
        else if TiedCutoff(ordered, limit, policy) then Err(AmbiguousBoundary)
        else Ok(Take(ordered, limit))
  {
    hide Filter, Sort, CheckBoundary, PickGroups, FillUp, Groups;
    var ordered := Ordered(discovered, policy);
    var picked := PickGroups(ordered, {}, limit, policy);
    var p := |picked|;
    OrderedFacts(discovered, policy);
    PickCount(ordered, {}, limit, policy);
    PickCountsGroups(ordered, {}, limit, policy);
    assert Groups(ordered, policy) - {} == Groups(ordered, policy);
    PickIsPrefixIff(ordered, {}, limit, policy);
    var selected := if p == limit then picked else FillUp(picked, ordered, limit);
    if picked == ordered[..p] {
      var m := |Take(ordered, limit)|;
      FillAfterPrefix(ordered, p, limit);
      assert selected == ordered[..m];
      PrefixBoundary(ordered, m, policy);
    } else {
      SelectedStartsWithPicked(ordered, picked, limit);
      DisplacedIsRejected(ordered, picked, selected, policy);
    }
  }

  lemma SelectedStartsWithPicked(ordered: seq<Model>, picked: seq<Model>, limit: nat)
    requires |picked| <= limit
    ensures |FillUp(picked, ordered, limit)| >= |picked| && FillUp(picked, ordered, limit)[..|picked|] == picked
  {
  }

  lemma DisplacedIsRejected(ordered: seq<Model>, picked: seq<Model>, selected: seq<Model>, policy: Policy)
    requires DistinctIdentities(ordered) && |picked| <= |ordered| && |picked| <= |selected|
    requires forall m :: m in picked ==> m in ordered
    requires selected[..|picked|] == picked && picked != ordered[..|picked|]
    ensures CheckBoundary(ordered, selected, policy) == Err(DiversityDisplacesCheaper)
  {
    var p := |picked|;
    if IdentitySeq(selected) == IdentitySeq(Take(ordered, |selected|)) {
      forall i | 0 <= i < p ensures IdentitySeq(picked)[i] == IdentitySeq(ordered[..p])[i] {
        assert IdentitySeq(selected)[i] == IdentitySeq(Take(ordered, |selected|))[i];
        assert selected[..p][i] == selected[i];
      }
      SameIdentitiesSameRows(ordered, picked);
      assert false;
    }
  }

  // A returned selection is strictly cheaper, in evidence, than everything it leaves out.
  lemma ExcludedRowsAreDearer(discovered: seq<Model>, limit: int, policy: Policy, x: Model, y: Model)
    requires limit >= 1 && Select(discovered, limit, policy).Ok?
    requires x in Select(discovered, limit, policy).value
    requires y in Ordered(discovered, policy) && y !in Select(discovered, limit, policy).value
    ensures EvidenceLess(EvidenceOf(x, policy), EvidenceOf(y, policy))
    ensures exists p: real :: Costs(x, p, policy) && forall q: real :: Costs(y, q, policy) ==> p < q
  {
    hide Filter, Sort, PickGroups, FillUp;
    var ordered := Ordered(discovered, policy);
    SelectionIsCostPrefix(discovered, limit, policy);
    OrderedFacts(discovered, policy);
    var m := |Take(ordered, limit)|;
    PrefixBoundary(ordered, m, policy);
    PrefixMembers(ordered, m);
    var i :| 0 <= i < m && ordered[i] == x;
    var j :| 0 <= j < |ordered| && ordered[j] == y;
    var p := CheaperHasCost(x, y, policy);
    forall q: real | Costs(y, q, policy) ensures p < q { EvidenceComparesCosts(x, y, policy, p, q); }
  }

  lemma CheaperHasCost(x: Model, y: Model, policy: Policy) returns (p: real)
    requires EvidenceLess(EvidenceOf(x, policy), EvidenceOf(y, policy))
    ensures Costs(x, p, policy)
  {
    p := EvidenceOf(x, policy).cost;
  }

  lemma PrefixMembers(s: seq<Model>, m: nat)
    requires m <= |s|
    ensures forall k :: 0 <= k < m ==> s[k] in s[..m]
  {
    forall k | 0 <= k < m ensures s[k] in s[..m] { assert s[..m][k] == s[k]; }
  }

  // ----- discovery order -----------------------------------------------------------------

  ghost predicate SameKeys(a: seq<Model>, b: seq<Model>, policy: Policy) {
    |a| == |b| && forall i :: 0 <= i < |a| ==> KnownCostSortKey(a[i], policy) == KnownCostSortKey(b[i], policy)
  }

  function UpToKey(key: Key, policy: Policy): Model -> bool { (m: Model) => KeyLe(KnownCostSortKey(m, policy), key) }
  function UpToCost(cost: Evidence, policy: Policy): Model -> bool { (m: Model) => !EvidenceLess(cost, EvidenceOf(m, policy)) }

  lemma {:induction false} UniqueOfDistinct(s: seq<Model>)
    requires DistinctIdentities(s)
    ensures Unique(s) == s
  {
    if s != [] { UniqueOfDistinct(s[..|s| - 1]); }
  }

  // Filtering by an initial segment of the order keeps exactly a prefix.
  lemma FilterIsPrefix(s: seq<Model>, p: Model -> bool, m: nat)
    requires m <= |s|
    requires forall i :: m <= i < |s| ==> !p(s[i])
    ensures |Filter(p, s)| <= m
    ensures (forall i :: 0 <= i < m ==> p(s[i])) ==> Filter(p, s) == s[..m]
  {
    assert s == s[..m] + s[m..];
    FilterAppend(p, s[..m], s[m..]);
    FilterNone(p, s[m..]);
    FilterMembers(p, s[..m]);
    if forall i :: 0 <= i < m ==> p(s[i]) { FilterAll(p, s[..m]); }
  }

  lemma FilterHasPrefix(s: seq<Model>, p: Model -> bool, m: nat)
    requires m <= |s| && forall i :: 0 <= i < m ==> p(s[i])
    ensures |Filter(p, s)| >= m
  {
    assert s == s[..m] + s[m..];
    FilterAppend(p, s[..m], s[m..]);
    FilterAll(p, s[..m]);
  }

  lemma KeyNotAbove(a: seq<Model>, b: seq<Model>, i: nat, policy: Policy)
    requires Sorted(a, ByKey(policy)) && Sorted(b, ByKey(policy)) && multiset(a) == multiset(b)
    requires i < |a| == |b|
    ensures KeyLe(KnownCostSortKey(b[i], policy), KnownCostSortKey(a[i], policy))
  {
    hide Filter;
    var key := KnownCostSortKey(a[i], policy);
    var p := UpToKey(key, policy);
    if !KeyLe(KnownCostSortKey(b[i], policy), key) {
      forall j | 0 <= j < i + 1 ensures p(a[j]) {
        KeyLeTotal(key, key);
        if j < i { assert ByKey(policy)(a[j], a[i]); }
      }
      FilterHasPrefix(a, p, i + 1);
      forall j | i <= j < |b| ensures !p(b[j]) {
        if i < j { assert ByKey(policy)(b[i], b[j]); }
        if p(b[j]) { KeyLeAfter(b, i, j, key, policy); }
      }
      FilterIsPrefix(b, p, i);
      FilterOfPermutation(p, a, b);
      assert false;
    }
  }

  lemma KeyLeAfter(b: seq<Model>, i: nat, j: nat, key: Key, policy: Policy)
    requires Sorted(b, ByKey(policy)) && i <= j < |b| && KeyLe(KnownCostSortKey(b[j], policy), key)
    ensures KeyLe(KnownCostSortKey(b[i], policy), key)
  {
    if i < j {
      assert ByKey(policy)(b[i], b[j]);
      KeyLeTransitive(KnownCostSortKey(b[i], policy), KnownCostSortKey(b[j], policy), key);
    }
  }

  lemma SortedPermutationsHaveSameKeys(a: seq<Model>, b: seq<Model>, policy: Policy)
    requires Sorted(a, ByKey(policy)) && Sorted(b, ByKey(policy)) && multiset(a) == multiset(b)
    ensures SameKeys(a, b, policy)
  {
    assert |multiset(a)| == |multiset(b)|;
    forall i | 0 <= i < |a| ensures KnownCostSortKey(a[i], policy) == KnownCostSortKey(b[i], policy) {
      KeyNotAbove(a, b, i, policy);
      KeyNotAbove(b, a, i, policy);
      KeyLeTotal(KnownCostSortKey(a[i], policy), KnownCostSortKey(b[i], policy));
    }
  }

  lemma GroupsDependOnKeys(a: seq<Model>, b: seq<Model>, policy: Policy)
    requires SameKeys(a, b, policy)
    ensures Groups(a, policy) <= Groups(b, policy)
  {
    forall g | g in Groups(a, policy) ensures g in Groups(b, policy) {
      var i :| 0 <= i < |a| && GroupOf(a[i], policy) == g;
      assert KnownCostSortKey(a[i], policy) == KnownCostSortKey(b[i], policy);
      assert b[i] in b;
    }
  }

  // Both conditions depend on the cost order's keys alone.
  lemma ConditionsDependOnKeys(a: seq<Model>, b: seq<Model>, limit: nat, policy: Policy)
    requires SameKeys(a, b, policy)
    ensures LeadersDistinct(a, limit, policy) ==> LeadersDistinct(b, limit, policy)
    ensures TiedCutoff(a, limit, policy) ==> TiedCutoff(b, limit, policy)
  {
    hide Groups;
    GroupsDependOnKeys(a, b, policy);
    GroupsDependOnKeys(b, a, policy);
    assert Groups(a, policy) == Groups(b, policy);
    forall i | 0 <= i < |a| ensures GroupOf(a[i], policy) == GroupOf(b[i], policy) && EvidenceOf(a[i], policy) == EvidenceOf(b[i], policy) {
      assert KnownCostSortKey(a[i], policy) == KnownCostSortKey(b[i], policy);
    }
  }

  lemma SideOfCutoff(ordered: seq<Model>, m: nat, i: nat, policy: Policy)
    requires Sorted(ordered, ByKey(policy)) && 0 < m <= |ordered| && i < |ordered|
    requires m < |ordered| ==> EvidenceOf(ordered[m - 1], policy) != EvidenceOf(ordered[m], policy)
    ensures UpToCost(EvidenceOf(ordered[m - 1], policy), policy)(ordered[i]) <==> i < m
  {
    hide TextLe;
    if i < m - 1 { assert ByKey(policy)(ordered[i], ordered[m - 1]); }
    if m <= i {
      assert ByKey(policy)(ordered[m - 1], ordered[m]);
      if m < i { assert ByKey(policy)(ordered[m], ordered[i]); }
    }
  }

  // A prefix that stops where cost strictly rises is decided by cost alone.
  lemma PrefixByCost(ordered: seq<Model>, m: nat, policy: Policy)
    requires Sorted(ordered, ByKey(policy)) && 0 < m <= |ordered|
    requires m < |ordered| ==> EvidenceOf(ordered[m - 1], policy) != EvidenceOf(ordered[m], policy)
    ensures Filter(UpToCost(EvidenceOf(ordered[m - 1], policy), policy), ordered) == ordered[..m]
  {
    hide Filter, EvidenceOf, EvidenceLess;
    var cost := EvidenceOf(ordered[m - 1], policy);
    forall i | 0 <= i < |ordered| ensures UpToCost(cost, policy)(ordered[i]) <==> i < m { SideOfCutoff(ordered, m, i, policy); }
    FilterIsPrefix(ordered, UpToCost(cost, policy), m);
  }

  // Neither the error raised nor the selected rows depend on the order of discovery.
  lemma DiscoveryOrderIsIrrelevant(d1: seq<Model>, d2: seq<Model>, limit: int, policy: Policy)
    requires multiset(d1) == multiset(d2)
    requires DistinctIdentities(Filter(Serves(policy), d1)) && DistinctIdentities(Filter(Serves(policy), d2))
    ensures Select(d1, limit, policy).Err? || Select(d2, limit, policy).Err? ==> Select(d1, limit, policy) == Select(d2, limit, policy)
    ensures Select(d1, limit, policy).Ok? ==>
      multiset(Select(d1, limit, policy).value) == multiset(Select(d2, limit, policy).value)
  {
    hide Filter, Sort, CheckBoundary, PickGroups, FillUp, Unique, KnownCostSortKey, LeadersDistinct, TiedCutoff;
    var s1, s2 := Filter(Serves(policy), d1), Filter(Serves(policy), d2);
    var o1, o2 := Ordered(d1, policy), Ordered(d2, policy);
    UniqueOfDistinct(s1);
    UniqueOfDistinct(s2);
    FilterOfPermutation(Serves(policy), d1, d2);
    SortPermutes(s1, ByKey(policy));
    SortPermutes(s2, ByKey(policy));
    OrderedFacts(d1, policy);
    OrderedFacts(d2, policy);
    SortedPermutationsHaveSameKeys(o1, o2, policy);
    if limit >= 1 {
      SelectionIsCostPrefix(d1, limit, policy);
      SelectionIsCostPrefix(d2, limit, policy);
      ConditionsDependOnKeys(o1, o2, limit, policy);
      ConditionsDependOnKeys(o2, o1, limit, policy);
      if !TiedCutoff(o1, limit, policy) { SameCostPrefix(o1, o2, limit, policy); }
    }
  }

  lemma SameCostPrefix(a: seq<Model>, b: seq<Model>, limit: nat, policy: Policy)
    requires SameKeys(a, b, policy) && !TiedCutoff(a, limit, policy) && multiset(a) == multiset(b)
    requires Sorted(a, ByKey(policy)) && Sorted(b, ByKey(policy))
    ensures multiset(Take(a, limit)) == multiset(Take(b, limit))
  {
    var m := |Take(a, limit)|;
    if m > 0 {
      ConditionsDependOnKeys(b, a, limit, policy);
      PrefixByCost(a, m, policy);
      PrefixByCost(b, m, policy);
      assert KnownCostSortKey(a[m - 1], policy) == KnownCostSortKey(b[m - 1], policy);
      var cost := EvidenceOf(a[m - 1], policy);
      FilterOfPermutation(UpToCost(cost, policy), a, b);
    }
  }
}
