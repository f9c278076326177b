// Validating a downloaded embeddings batch and putting it back into submission order
// (contextual_orchestrator/batch_routing.py, _validated_download_responses and
// PgLlmBatchEmbeddingBackend.submit and retrieve).

module EmbeddingDownload {
  import opened Prelude
  import opened StableSort

  type Vector = seq<real>

  datatype Request = Request(
    inputText: string, customId: string, agentId: Option<string>,
    sourceIndex: nat, partIndex: nat, tokenCount: nat)

  datatype Status = NoStatus | NotAnInteger | Code(value: int)

  datatype Response = Response(status: Status, embedding: Vector, promptTokens: int)

  // A downloaded row; an id that is no string and a response that is no object are None.
  datatype Entry = NotAnObject | Entry(customId: Option<string>, failed: bool, response: Option<Response>)

  datatype DownloadError =
    | DownloadFailed | MalformedList | MetadataUnavailable | MalformedRow | IdMismatch | ItemFailed | Incomplete

  // ----- validation ---------------------------------------------------------------------------

  // The first thing wrong with a row, given the ids already seen.
  function RowFault(entry: Entry, expected: set<string>, seen: set<string>): Option<DownloadError> {
    if entry.NotAnObject? then Some(MalformedRow)
    else if entry.customId.None? || entry.customId.value !in expected || entry.customId.value in seen then Some(IdMismatch)
    else if entry.failed then Some(ItemFailed)
    else match entry.response
      case None => Some(MalformedRow)
      case Some(response) =>
        match response.status
        case NoStatus => None
        case NotAnInteger => Some(ItemFailed)
        case Code(value) => if 200 <= value < 300 then None else Some(ItemFailed)
  }

  function IdsOf(entries: seq<Entry>): set<string> {
    set i | 0 <= i < |entries| && entries[i].Entry? && entries[i].customId.Some? :: entries[i].customId.value
  }

  ghost predicate RowsFine(entries: seq<Entry>, expected: set<string>) {
    forall i :: 0 <= i < |entries| ==> RowFault(entries[i], expected, IdsOf(entries[..i])) == None
  }

  // One successful row for every expected id, and nothing else.
  ghost predicate Complete(entries: seq<Entry>, expected: set<string>, requestCount: nat) {
    RowsFine(entries, expected) && IdsOf(entries) == expected && |entries| == requestCount
  }

  method ValidatedDownloadResponses(responses: Option<seq<Entry>>, expected: set<string>, requestCount: nat)
      returns (result: Result<seq<Entry>, DownloadError>)
    ensures result.Ok? <==> responses.Some? && (requestCount > 0 ==> expected != {}) && Complete(responses.value, expected, requestCount)
    ensures result.Ok? ==> result.value == responses.value
    ensures result == Err(MalformedList) <==> responses.None?
    ensures result == Err(MetadataUnavailable) <==> responses.Some? && requestCount > 0 && expected == {}
    ensures result == Err(Incomplete) <==>
      && responses.Some? && (requestCount > 0 ==> expected != {}) && RowsFine(responses.value, expected)
      && !Complete(responses.value, expected, requestCount)
    // any other error is that of the first row at fault
    ensures result.Err? && result.error !in {MalformedList, MetadataUnavailable, Incomplete} ==>
      exists i :: 0 <= i < |responses.value| && RowsFine(responses.value[..i], expected)
                  && RowFault(responses.value[i], expected, IdsOf(responses.value[..i])) == Some(result.error)
  {
    if responses.None? { return Err(MalformedList); }
    var entries := responses.value;
    if requestCount > 0 && expected == {} { return Err(MetadataUnavailable); }
    var seen: set<string> := {};
    for i := 0 to |entries|
      invariant seen == IdsOf(entries[..i])
      invariant forall k :: 0 <= k < i ==> RowFault(entries[k], expected, IdsOf(entries[..k])) == None
    {
      var fault := RowFault(entries[i], expected, seen);
      if fault.Some? {
        FineUpTo(entries, expected, i);
        return Err(fault.value);
      }
      IdsOfSnoc(entries[..i], entries[i]);
      assert entries[..i + 1] == entries[..i] + [entries[i]];
      seen := seen + {entries[i].customId.value};
    }
    assert entries[..|entries|] == entries;
    if seen != expected || |entries| != requestCount { return Err(Incomplete); }
    return Ok(entries);
  }

  lemma FineUpTo(entries: seq<Entry>, expected: set<string>, n: nat)
    requires n <= |entries|
    requires forall k :: 0 <= k < n ==> RowFault(entries[k], expected, IdsOf(entries[..k])) == None
    ensures RowsFine(entries[..n], expected)
  {
    forall k | 0 <= k < n ensures entries[..n][..k] == entries[..k] {}
  }

  lemma IdsOfSnoc(entries: seq<Entry>, entry: Entry)
    ensures IdsOf(entries + [entry]) == IdsOf(entries) + if entry.Entry? && entry.customId.Some? then {entry.customId.value} else {}
  {
    var more := entries + [entry];
    assert forall i :: 0 <= i < |entries| ==> more[i] == entries[i];
    assert more[|entries|] == entry;
  }

  predicate StatusFine(status: Status) {
    status.NoStatus? || (status.Code? && 200 <= status.value <= 299)
  }

  // Said of the rows themselves: each answers one of the expected ids, did not fail, and has a
  // response whose status is absent or from 200 to 299; no id is answered twice and none is
  // missing.
  lemma CompleteMeans(entries: seq<Entry>, expected: set<string>, requestCount: nat)
    ensures Complete(entries, expected, requestCount) <==>
      && |entries| == requestCount
      && (forall i :: 0 <= i < |entries| ==>
            && entries[i].Entry? && entries[i].customId.Some? && entries[i].customId.value in expected
            && !entries[i].failed && entries[i].response.Some? && StatusFine(entries[i].response.value.status))
      && (forall i, j :: 0 <= i < j < |entries| ==> entries[i].customId != entries[j].customId)
      && (forall id :: id in expected ==> exists i :: 0 <= i < |entries| && entries[i].Entry? && entries[i].customId == Some(id))
  {
    if RowsFine(entries, expected) {
      forall i, j | 0 <= i < j < |entries| ensures entries[i].customId != entries[j].customId {
        assert RowFault(entries[i], expected, IdsOf(entries[..i])) == None;
        assert RowFault(entries[j], expected, IdsOf(entries[..j])) == None;
        assert entries[..j][i] == entries[i];
      }
    }
  }

  // The first fault of a row, in the order of the checks.
  lemma RowFaultMeans(entry: Entry, expected: set<string>, seen: set<string>)
    ensures var fault := RowFault(entry, expected, seen);
      var known := entry.Entry? && entry.customId.Some? && entry.customId.value in expected && entry.customId.value !in seen;
      && (fault == Some(IdMismatch) <==> entry.Entry? && !known)
      && (fault == Some(MalformedRow) <==> entry.NotAnObject? || (known && !entry.failed && entry.response.None?))
      && (fault.Some? ==> fault.value in {IdMismatch, MalformedRow, ItemFailed})
      && (fault == None ==> known && !entry.failed && entry.response.Some? && StatusFine(entry.response.value.status))
      && (known && !entry.failed && entry.response.Some? && StatusFine(entry.response.value.status) ==> fault == None)
  {
  }

  // ----- ids on the wire -----------------------------------------------------------------------

  const PROVIDER_CUSTOM_ID_MAX_LENGTH := 64

  function WireId(r: Request, digest: seq<nat> -> string): string {
    if r.agentId.None? && |r.customId| <= PROVIDER_CUSTOM_ID_MAX_LENGTH then r.customId
    else digest(Utf8(if r.agentId.None? then r.customId else r.agentId.value + "\0" + r.customId))
  }

  function WireIds(requests: seq<Request>, digest: seq<nat> -> string): (order: seq<string>)
    ensures |order| == |requests|
    ensures forall i :: 0 <= i < |order| ==> order[i] == WireId(requests[i], digest)
  {
    seq(|requests|, i requires 0 <= i < |requests| => WireId(requests[i], digest))
  }

  // What submit() keeps of a batch. A registry that forgot the batch has both parts empty.
  datatype Tracked = Tracked(order: seq<string>, requests: map<string, Request>)

  // The request dictionary: a later request with the same wire id replaces an earlier one.
  function ByWireId(requests: seq<Request>, digest: seq<nat> -> string): map<string, Request> {
    if requests == [] then map[]
    else
      var last := requests[|requests| - 1];
      ByWireId(requests[..|requests| - 1], digest)[WireId(last, digest) := last]
  }

  function Submit(requests: seq<Request>, digest: seq<nat> -> string): Tracked {
    Tracked(WireIds(requests, digest), ByWireId(requests, digest))
  }

  // A short id without an agent goes over the wire as it is.
  lemma ShortIdsStay(r: Request, digest: seq<nat> -> string)
    requires r.agentId.None? && |r.customId| <= 64
    ensures WireId(r, digest) == r.customId
  {
  }

  // Requests that name agents, without a NUL in the names, share a wire id only where they
  // share agent and id; so do requests without agents whose ids are too long.
  lemma WireIdsDiffer(a: Request, b: Request, digest: seq<nat> -> string)
    requires Injective(digest)
    requires || (a.agentId.Some? && b.agentId.Some? && NUL !in a.agentId.value && NUL !in b.agentId.value)
             || (a.agentId.None? && b.agentId.None? && |a.customId| > 64 && |b.customId| > 64)
    ensures WireId(a, digest) == WireId(b, digest) <==> a.agentId == b.agentId && a.customId == b.customId
  {
    if WireId(a, digest) == WireId(b, digest) {
      if a.agentId.Some? {
        Utf8IsInjective(a.agentId.value + "\0" + a.customId, b.agentId.value + "\0" + b.customId);
        assert "\0" == [NUL];
        FirstNul(a.agentId.value, a.customId, b.agentId.value, b.customId);
      } else {
        Utf8IsInjective(a.customId, b.customId);
      }
    }
  }

  lemma {:induction false} ByWireIdFacts(requests: seq<Request>, digest: seq<nat> -> string)
    ensures forall id :: id in ByWireId(requests, digest) <==> id in WireIds(requests, digest)
    ensures Distinct(WireIds(requests, digest)) ==>
      forall i :: 0 <= i < |requests| ==> ByWireId(requests, digest)[WireIds(requests, digest)[i]] == requests[i]
  {
    hide WireId;
    if requests != [] {
      var n := |requests| - 1;
      ByWireIdFacts(requests[..n], digest);
      var order, front := WireIds(requests, digest), WireIds(requests[..n], digest);
      assert order == front + [order[n]];
      assert forall id :: id in order <==> id in front || id == order[n];
      if Distinct(order) { DistinctFront(front, order[n]); }
    }
  }

  lemma DistinctFront(front: seq<string>, last: string)
    requires Distinct(front + [last])
    ensures Distinct(front) && last !in front
  {
    var all := front + [last];
    forall i, j | 0 <= i < j < |front| ensures front[i] != front[j] { assert all[i] != all[j]; }
    forall i | 0 <= i < |front| ensures front[i] != last { assert all[i] != all[|front|]; }
  }

  // ----- retrieval ---------------------------------------------------------------------------------

  datatype Item = Item(customId: string, index: nat, embedding: Vector, promptTokens: int)

  datatype Payload = Failure | Success(responses: Option<seq<Entry>>)

  function ByIndex(): (Item, Item) -> bool {
    (a: Item, b: Item) => a.index <= b.index
  }

  // position_by_custom_id: where an id was submitted, the last place if there are several.
  function Position(order: seq<string>, id: string): (p: nat)
    requires id in order
    ensures p < |order| && order[p] == id
  {
    var n := |order| - 1;
    if order[n] == id then n else Position(order[..n], id)
  }

  // The row of the download that answers one id.
  ghost predicate Answers(entry: Entry, id: string, item: Item) {
    entry.Entry? && entry.customId == Some(id) && entry.response.Some?
    && item.embedding == entry.response.value.embedding && item.promptTokens == entry.response.value.promptTokens
  }

  function ItemOf(entry: Entry, tracked: Tracked): Item
    requires entry.Entry? && entry.customId.Some? && entry.response.Some?
    requires entry.customId.value in tracked.order && entry.customId.value in tracked.requests
  {
    var id := entry.customId.value;
    Item(tracked.requests[id].customId, Position(tracked.order, id), entry.response.value.embedding, entry.response.value.promptTokens)
  }

  method Retrieve(tracked: Tracked, requestCount: nat, payload: Payload) returns (result: Result<seq<Item>, DownloadError>)
    requires forall id :: id in tracked.requests <==> id in tracked.order
    requires tracked.order != [] ==> requestCount == |tracked.order|
    ensures payload.Failure? ==> result == Err(DownloadFailed)
    ensures result.Ok? <==>
      && payload.Success? && payload.responses.Some? && (requestCount > 0 ==> tracked.order != [])
      && Complete(payload.responses.value, tracked.requests.Keys, requestCount)
    // one item a request, at its own place, holding the row that answered it
    ensures result.Ok? ==> InOrder(tracked, payload.responses.value, result.value)
    // an id on the wire twice can never be answered completely
    ensures result.Ok? ==> Distinct(tracked.order)
  {
    hide RowFault, Position, Sort;
    if payload.Failure? { return Err(DownloadFailed); }
    var validated := ValidatedDownloadResponses(payload.responses, tracked.requests.Keys, requestCount);
    assert tracked.order != [] ==> tracked.order[0] in tracked.requests.Keys;
    assert tracked.requests.Keys != {} ==> tracked.order != [];
    if validated.Err? { return Err(validated.error); }
    var entries := validated.value;
    forall i | 0 <= i < |entries| ensures Usable(entries[i], tracked) { FineRow(entries, tracked, i); }
    var items: seq<Item> := [];
    for i := 0 to |entries|
      invariant |items| == i
      invariant forall k :: 0 <= k < i ==> Usable(entries[k], tracked) && items[k] == ItemOf(entries[k], tracked)
    {
      items := items + [ItemOf(entries[i], tracked)];
    }
    CompleteIsInOrder(tracked, entries, items);
    return Ok(Sort(items, ByIndex()));
  }

  ghost predicate InOrder(tracked: Tracked, entries: seq<Entry>, items: seq<Item>) {
    && |items| == |tracked.order|
    && forall i :: 0 <= i < |items| ==>
         && items[i].index == i
         && tracked.order[i] in tracked.requests && items[i].customId == tracked.requests[tracked.order[i]].customId
         && exists k :: 0 <= k < |entries| && Answers(entries[k], tracked.order[i], items[i])
  }

  ghost predicate Usable(entry: Entry, tracked: Tracked) {
    entry.Entry? && entry.customId.Some? && entry.response.Some?
    && entry.customId.value in tracked.order && entry.customId.value in tracked.requests
  }

  lemma FineRow(entries: seq<Entry>, tracked: Tracked, i: nat)
    requires RowsFine(entries, tracked.requests.Keys) && i < |entries|
    requires forall id :: id in tracked.requests <==> id in tracked.order
    ensures Usable(entries[i], tracked) && entries[i].customId.value !in IdsOf(entries[..i])
  {
    assert RowFault(entries[i], tracked.requests.Keys, IdsOf(entries[..i])) == None;
  }

  lemma RowIdsDistinct(entries: seq<Entry>, tracked: Tracked, i: nat, j: nat)
    requires RowsFine(entries, tracked.requests.Keys) && i < j < |entries|
    requires forall id :: id in tracked.requests <==> id in tracked.order
    ensures Usable(entries[i], tracked) && Usable(entries[j], tracked)
    ensures entries[i].customId.value != entries[j].customId.value
  {
    FineRow(entries, tracked, i);
    FineRow(entries, tracked, j);
    assert entries[..j][i] == entries[i];
    assert entries[i].customId.value in IdsOf(entries[..j]);
  }

  // Distinct positions below n, n of them, in increasing order: each is its own place.
  lemma {:induction false} IncreasingPlaces(places: seq<nat>, low: nat)
    requires forall i, j :: 0 <= i < j < |places| ==> places[i] < places[j]
    requires forall i :: 0 <= i < |places| ==> low <= places[i] < low + |places|
    ensures forall i :: 0 <= i < |places| ==> places[i] == low + i
  {
    if places != [] {
      var n := |places| - 1;
      forall i | 0 <= i < n ensures places[i] < low + n { assert places[i] < places[n]; }
      IncreasingPlaces(places[..n], low);
      if n > 0 { assert places[n - 1] == places[..n][n - 1]; }
    }
  }

  // Sorting items whose places are 0, 1, ... in some order puts each at its place.
  lemma SortedIntoPlace(items: seq<Item>)
    requires forall i :: 0 <= i < |items| ==> items[i].index < |items|
    requires forall i, j :: 0 <= i < j < |items| ==> items[i].index != items[j].index
    ensures |Sort(items, ByIndex())| == |items|
    ensures forall i :: 0 <= i < |items| ==> Sort(items, ByIndex())[i].index == i && Sort(items, ByIndex())[i] in items
  {
    hide Sort;
    var sorted, n := Sort(items, ByIndex()), |items|;
    assert TotalPreorder(ByIndex());
    SortPermutes(items, ByIndex());
    SortSorts(items, ByIndex());
    DistinctStaysDistinct(items, sorted);
    forall i | 0 <= i < n ensures sorted[i] in items { assert sorted[i] in multiset(sorted); }
    var places := seq(n, i requires 0 <= i < n => sorted[i].index);
    forall i, j | 0 <= i < j < n ensures places[i] < places[j] {
      assert ByIndex()(sorted[i], sorted[j]);
    }
    forall i | 0 <= i < n ensures 0 <= places[i] < n { assert sorted[i] in items; }
    IncreasingPlaces(places, 0);
    forall i | 0 <= i < n ensures sorted[i].index == i { assert places[i] == i; }
  }

  lemma ItemPlacesDistinct(tracked: Tracked, entries: seq<Entry>, items: seq<Item>)
    requires forall id :: id in tracked.requests <==> id in tracked.order
    requires RowsFine(entries, tracked.requests.Keys) && |items| == |entries|
    requires forall k :: 0 <= k < |entries| ==> Usable(entries[k], tracked) && items[k] == ItemOf(entries[k], tracked)
    ensures forall i, j :: 0 <= i < j < |items| ==> items[i].index != items[j].index
    ensures forall i :: 0 <= i < |items| ==> items[i].index < |tracked.order|
    ensures forall i :: 0 <= i < |items| ==> PlacedItem(tracked, entries[i], items[i])
  {
    hide RowsFine, Position;
    forall i, j | 0 <= i < j < |items| ensures items[i].index != items[j].index {
      RowIdsDistinct(entries, tracked, i, j);
    }
  }

  // The item an entry became, at the place of the entry's id.
  ghost predicate PlacedItem(tracked: Tracked, entry: Entry, item: Item) {
    && item.index < |tracked.order|
    && tracked.order[item.index] in tracked.requests
    && item.customId == tracked.requests[tracked.order[item.index]].customId
    && Answers(entry, tracked.order[item.index], item)
  }

  lemma CompleteIsInOrder(tracked: Tracked, entries: seq<Entry>, items: seq<Item>)
    requires forall id :: id in tracked.requests <==> id in tracked.order
    requires RowsFine(entries, tracked.requests.Keys) && |entries| == |tracked.order| && |items| == |entries|
    requires forall k :: 0 <= k < |entries| ==> Usable(entries[k], tracked) && items[k] == ItemOf(entries[k], tracked)
    ensures Distinct(tracked.order)
    ensures InOrder(tracked, entries, Sort(items, ByIndex()))
  {
    hide Sort, RowsFine, ItemOf, Usable;
    ItemPlacesDistinct(tracked, entries, items);
    SortedIntoPlace(items);
    PlacedInOrder(tracked, entries, items, Sort(items, ByIndex()));
    IdAtEachPlace(tracked, entries, items, Sort(items, ByIndex()));
  }

  lemma PlacedInOrder(tracked: Tracked, entries: seq<Entry>, items: seq<Item>, sorted: seq<Item>)
    requires |sorted| == |items| == |entries| == |tracked.order|
    requires forall i :: 0 <= i < |items| ==> PlacedItem(tracked, entries[i], items[i])
    requires forall i :: 0 <= i < |sorted| ==> sorted[i].index == i && sorted[i] in items
    ensures InOrder(tracked, entries, sorted)
  {
    forall i | 0 <= i < |sorted|
      ensures tracked.order[i] in tracked.requests && sorted[i].customId == tracked.requests[tracked.order[i]].customId
      ensures exists k :: 0 <= k < |entries| && Answers(entries[k], tracked.order[i], sorted[i])
    {
      var k :| 0 <= k < |items| && items[k] == sorted[i];
      assert PlacedItem(tracked, entries[k], items[k]);
    }
  }

  // The ids on the wire are told apart by the rows that answer them.
  lemma IdAtEachPlace(tracked: Tracked, entries: seq<Entry>, items: seq<Item>, sorted: seq<Item>)
    requires |sorted| == |items| == |entries| == |tracked.order|
    requires forall i :: 0 <= i < |items| ==> PlacedItem(tracked, entries[i], items[i])
    requires forall i :: 0 <= i < |items| ==> Usable(entries[i], tracked) && items[i] == ItemOf(entries[i], tracked)
    requires forall i :: 0 <= i < |sorted| ==> sorted[i].index == i && sorted[i] in items
    ensures Distinct(tracked.order)
  {
    hide Position;
    forall i, j | 0 <= i < j < |sorted| ensures tracked.order[i] != tracked.order[j] {
      var k :| 0 <= k < |items| && items[k] == sorted[i];
      var l :| 0 <= l < |items| && items[l] == sorted[j];
      assert items[k].index == Position(tracked.order, entries[k].customId.value);
      assert items[l].index == Position(tracked.order, entries[l].customId.value);
    }
  }

  lemma DistinctStaysDistinct(items: seq<Item>, sorted: seq<Item>)
    requires multiset(items) == multiset(sorted)
    requires forall i, j :: 0 <= i < j < |items| ==> items[i].index != items[j].index
    ensures forall i, j :: 0 <= i < j < |sorted| ==> sorted[i].index != sorted[j].index
  {
    forall i, j | 0 <= i < j < |sorted| ensures sorted[i].index != sorted[j].index {
      if sorted[i].index == sorted[j].index {
        assert sorted[i] in multiset(items) && sorted[j] in multiset(items);
        assert sorted[i] in items && sorted[j] in items;
        assert sorted[i] == sorted[j];
        TwiceInSeq(sorted, i, j);
        AtMostOnce(items, sorted[i]);
      }
    }
  }

  lemma TwiceInSeq<T>(s: seq<T>, i: nat, j: nat)
    requires i < j < |s| && s[i] == s[j]
    ensures multiset(s)[s[i]] >= 2
  {
    assert s == s[..i] + [s[i]] + s[i + 1..j] + [s[j]] + s[j + 1..];
  }

  lemma {:induction false} AtMostOnce<T>(s: seq<T>, x: T)
    requires forall i, j :: 0 <= i < j < |s| ==> s[i] != s[j]
    ensures multiset(s)[x] <= 1
  {
    if s != [] {
      AtMostOnce(s[1..], x);
      assert s == [s[0]] + s[1..];
      if s[0] == x { assert x !in s[1..]; }
    }
  }

  // The order the provider returned its rows in makes no difference.
  lemma DownloadOrderIsIrrelevant(
      tracked: Tracked, one: seq<Entry>, other: seq<Entry>, requestCount: nat, items: seq<Item>, others: seq<Item>)
    requires forall id :: id in tracked.requests <==> id in tracked.order
    requires multiset(one) == multiset(other)
    requires Complete(one, tracked.requests.Keys, requestCount) && Complete(other, tracked.requests.Keys, requestCount)
    requires InOrder(tracked, one, items) && InOrder(tracked, other, others)
    ensures items == others
  {
    hide RowFault, RowsFine;
    forall i | 0 <= i < |items| ensures items[i] == others[i] {
      var k :| 0 <= k < |one| && Answers(one[k], tracked.order[i], items[i]);
      var l :| 0 <= l < |other| && Answers(other[l], tracked.order[i], others[i]);
      assert one[k] in multiset(other);
      var m :| 0 <= m < |other| && other[m] == one[k];
      if m < l { RowIdsDistinct(other, tracked, m, l); }
      if l < m { RowIdsDistinct(other, tracked, l, m); }
    }
  }

  // For requests of one agent, distinct wire ids mean distinct internal ids.
  lemma WireIdsTellRequestsApart(requests: seq<Request>, digest: seq<nat> -> string)
    requires Distinct(WireIds(requests, digest))
    requires forall i, j :: 0 <= i < j < |requests| ==> requests[i].agentId == requests[j].agentId
    ensures forall i, j :: 0 <= i < j < |requests| ==> requests[i].customId != requests[j].customId
  {
    forall i, j | 0 <= i < j < |requests| ensures requests[i].customId != requests[j].customId {
      assert WireIds(requests, digest)[i] != WireIds(requests, digest)[j];
    }
  }
}
