// Mapping inputs to embedding parts and reducing the returned parts to one document
// (contextual_orchestrator/cost_router.py, _build_embedding_requests,
// _embeddings_batch_document_locked and _weighted_average_embedding). Vectors are over the
// reals; the final rounding of a component is not modelled.

module EmbeddingDocument {
  import opened Prelude
  import opened StableSort
  import opened EmbeddingDownload
  import TextSplitter

  type Chunks = seq<seq<TextSplitter.Chunk>>
  type IdSource = (nat, nat) -> string

  // ----- map ------------------------------------------------------------------------------------

  function RequestOf(chunk: TextSplitter.Chunk, source: nat, part: nat, agentId: Option<string>, ids: IdSource): Request {
    Request(chunk.text, ids(source, part), agentId, source, part, chunk.tokens)
  }

  function RequestsOfInput(parts: seq<TextSplitter.Chunk>, source: nat, agentId: Option<string>, ids: IdSource): (r: seq<Request>)
    ensures |r| == |parts|
    ensures forall k :: 0 <= k < |parts| ==> r[k] == RequestOf(parts[k], source, k, agentId, ids)
  {
    seq(|parts|, k requires 0 <= k < |parts| => RequestOf(parts[k], source, k, agentId, ids))
  }

  function BuiltRequests(chunks: Chunks, agentId: Option<string>, ids: IdSource): seq<Request> {
    if chunks == [] then []
    else
      var n := |chunks| - 1;
      BuiltRequests(chunks[..n], agentId, ids) + RequestsOfInput(chunks[n], n, agentId, ids)
  }

  // The requests stand input by input and part by part: after those of the earlier inputs, part
  // k of input s asks for the text of that chunk, under its own fresh id.
  lemma {:induction false} BuiltInOrder(chunks: Chunks, agentId: Option<string>, ids: IdSource, s: nat, k: nat)
    requires s < |chunks| && k < |chunks[s]|
    ensures |BuiltRequests(chunks, agentId, ids)| == |Flatten(chunks)|
    ensures var at := |Flatten(chunks[..s])| + k;
      && at < |Flatten(chunks)|
      && BuiltRequests(chunks, agentId, ids)[at].inputText == chunks[s][k].text
      && BuiltRequests(chunks, agentId, ids)[at].tokenCount == chunks[s][k].tokens
      && BuiltRequests(chunks, agentId, ids)[at].customId == ids(s, k)
      && BuiltRequests(chunks, agentId, ids)[at].agentId == agentId
      && BuiltRequests(chunks, agentId, ids)[at].sourceIndex == s && BuiltRequests(chunks, agentId, ids)[at].partIndex == k
  {
    var n := |chunks| - 1;
    BuiltLength(chunks, agentId, ids);
    BuiltLength(chunks[..n], agentId, ids);
    assert chunks == chunks[..n] + [chunks[n]];
    FlattenSnoc(chunks[..n], chunks[n]);
    if s < n {
      BuiltInOrder(chunks[..n], agentId, ids, s, k);
      assert chunks[..n][..s] == chunks[..s];
    }
  }

  lemma {:induction false} BuiltLength(chunks: Chunks, agentId: Option<string>, ids: IdSource)
    ensures |BuiltRequests(chunks, agentId, ids)| == |Flatten(chunks)|
  {
    if chunks != [] {
      var n := |chunks| - 1;
      BuiltLength(chunks[..n], agentId, ids);
      assert chunks == chunks[..n] + [chunks[n]];
      FlattenSnoc(chunks[..n], chunks[n]);
    }
  }

  // `chunks` is what the splitter returned for each input; `ids` draws the fresh ids.
  method BuildEmbeddingRequests(chunks: Chunks, agentId: Option<string>, ids: IdSource)
      returns (requests: seq<Request>, partCounts: seq<nat>)
    ensures requests == BuiltRequests(chunks, agentId, ids) && |requests| == |Flatten(chunks)|
    ensures |partCounts| == |chunks| && forall s :: 0 <= s < |chunks| ==> partCounts[s] == |chunks[s]|
  {
    requests, partCounts := [], [];
    for source := 0 to |chunks|
      invariant requests == BuiltRequests(chunks[..source], agentId, ids)
      invariant |partCounts| == source && forall s :: 0 <= s < source ==> partCounts[s] == |chunks[s]|
    {
      var parts := chunks[source];
      ghost var before, own := requests, RequestsOfInput(parts, source, agentId, ids);
      partCounts := partCounts + [|parts|];
      for part := 0 to |parts|
        invariant requests == before + own[..part]
      {
        assert own[..part + 1] == own[..part] + [own[part]];
        requests := requests + [RequestOf(parts[part], source, part, agentId, ids)];
      }
      assert own[..|parts|] == own;
      assert chunks[..source + 1][..source] == chunks[..source];
    }
    assert chunks[..|chunks|] == chunks;
    BuiltLength(chunks, agentId, ids);
  }

  // ----- what an item counts for ------------------------------------------------------------------

  datatype Part = Part(source: nat, index: nat, embedding: Vector, tokens: Option<nat>, hasAgent: bool)

  // The provider's count, else the request's own, else the tokenizer's; None where it fails.
  function ItemTokens(item: Item, request: Option<Request>, count: TextSplitter.Counter): Option<nat> {
    if item.promptTokens > 0 then Some(item.promptTokens)
    else match request
      case None => Some(0)
      case Some(r) =>
        if r.tokenCount > 0 || r.inputText == "" then Some(r.tokenCount)
        else match count(r.inputText)
          case None => None
          case Some(value) => Some(if value < 0 then 0 else value)
  }

  function PartOf(item: Item, request: Option<Request>, count: TextSplitter.Counter): Part {
    Part(if request.Some? then request.value.sourceIndex else item.index,
         if request.Some? then request.value.partIndex else 0,
         item.embedding, ItemTokens(item, request, count),
         request.Some? && request.value.agentId.Some? && request.value.agentId.value != "")
  }

  function ByCustomId(requests: seq<Request>): map<string, Request> {
    if requests == [] then map[]
    else ByCustomId(requests[..|requests| - 1])[requests[|requests| - 1].customId := requests[|requests| - 1]]
  }

  function Lookup(byId: map<string, Request>, id: string): Option<Request> {
    if id in byId then Some(byId[id]) else None
  }

  // Every returned item as a part, in index order.
  function Parts(items: seq<Item>, requests: seq<Request>, count: TextSplitter.Counter): seq<Part> {
    var ordered, byId := Sort(items, ByIndex()), ByCustomId(requests);
    Map((item: Item) => PartOf(item, Lookup(byId, item.customId), count), ordered)
  }

  function HasSource(source: nat): Part -> bool {
    (p: Part) => p.source == source
  }

  function ByPart(): (Part, Part) -> bool {
    (a: Part, b: Part) => a.index <= b.index
  }

  // The parts of one input, in part order.
  function Group(parts: seq<Part>, source: nat): seq<Part> {
    Sort(Filter(HasSource(source), parts), ByPart())
  }

  predicate Unresolved(group: seq<Part>) {
    exists p :: p in group && p.tokens.None?
  }

  function Tokens(p: Part): nat {
    if p.tokens.Some? then p.tokens.value else 0
  }

  function SumTokens(group: seq<Part>): nat {
    if group == [] then 0 else SumTokens(group[..|group| - 1]) + Tokens(group[|group| - 1])
  }

  function SumCounts(counts: seq<Option<nat>>): nat {
    if counts == [] then 0
    else SumCounts(counts[..|counts| - 1]) + if counts[|counts| - 1].Some? then counts[|counts| - 1].value else 0
  }

  // ----- reduce --------------------------------------------------------------------------------------

  function Component(v: Vector, offset: nat): real {
    if offset < |v| then v[offset] else 0.0
  }

  function Weight(p: Part): nat {
    if Tokens(p) < 1 then 1 else Tokens(p)
  }

  function TotalWeight(group: seq<Part>): nat {
    if group == [] then 0 else TotalWeight(group[..|group| - 1]) + Weight(group[|group| - 1])
  }

  function Scale(x: real, weight: nat): real {
    x * weight as real
  }

  function WeightedSum(group: seq<Part>, offset: nat): real {
    if group == [] then 0.0
    else
      var n := |group| - 1;
      WeightedSum(group[..n], offset) + Scale(Component(group[n].embedding, offset), Weight(group[n]))
  }

  // The longest vector's length.
  function Dimension(group: seq<Part>): nat {
    if group == [] then 0
    else
      var before, last := Dimension(group[..|group| - 1]), |group[|group| - 1].embedding|;
      if before < last then last else before
  }

  ghost predicate IsAverage(group: seq<Part>, reduced: Vector) {
    && |reduced| == Dimension(group)
    && (group != [] ==> TotalWeight(group) > 0)
    && forall offset :: 0 <= offset < |reduced| ==> IsMean(group, offset, reduced[offset])
  }

  ghost predicate IsMean(group: seq<Part>, offset: nat, mean: real) {
    Scale(mean, TotalWeight(group)) == WeightedSum(group, offset)
  }

  lemma {:induction false} TotalWeightIsPositive(group: seq<Part>)
    ensures TotalWeight(group) >= |group|
  {
    if group != [] { TotalWeightIsPositive(group[..|group| - 1]); }
  }

  lemma {:induction false} NoDimension(group: seq<Part>)
    ensures Dimension(group) == 0 <==> forall p :: p in group ==> p.embedding == []
  {
    if group != [] {
      var n := |group| - 1;
      NoDimension(group[..n]);
      assert group == group[..n] + [group[n]];
    }
  }

  method WeightedAverageEmbedding(group: seq<Part>) returns (reduced: Vector)
    ensures IsAverage(group, reduced)
  {
    hide Weight, WeightedSum, IsMean;
    TotalWeightIsPositive(group);
    NoDimension(group);
    reduced := [];
    if forall p :: p in group ==> p.embedding == [] { return; }
    var dimension, totalWeight := Measure(group);
    for offset := 0 to dimension
      invariant |reduced| == offset
      invariant forall o :: 0 <= o < offset ==> IsMean(group, o, reduced[o])
    {
      var mean := MeanComponent(group, offset, totalWeight);
      reduced := reduced + [mean];
    }
  }

  method Measure(group: seq<Part>) returns (dimension: nat, totalWeight: nat)
    ensures dimension == Dimension(group) && totalWeight == TotalWeight(group)
  {
    hide Weight;
    dimension, totalWeight := 0, 0;
    for i := 0 to |group|
      invariant dimension == Dimension(group[..i]) && totalWeight == TotalWeight(group[..i])
    {
      assert group[..i + 1][..i] == group[..i];
      dimension := if dimension < |group[i].embedding| then |group[i].embedding| else dimension;
      totalWeight := totalWeight + Weight(group[i]);
    }
    assert group[..|group|] == group;
  }

  method MeanComponent(group: seq<Part>, offset: nat, totalWeight: nat) returns (mean: real)
    requires totalWeight == TotalWeight(group) && totalWeight > 0
    ensures IsMean(group, offset, mean)
  {
    hide WeightedSum, TotalWeight, Scale;
    var weightedSum := WeightedComponent(group, offset);
    UndoScale(weightedSum, totalWeight);
    return weightedSum / totalWeight as real;
  }

  method WeightedComponent(group: seq<Part>, offset: nat) returns (weightedSum: real)
    ensures weightedSum == WeightedSum(group, offset)
  {
    hide Weight, Component, Scale;
    weightedSum := 0.0;
    for i := 0 to |group|
      invariant weightedSum == WeightedSum(group[..i], offset)
    {
      assert group[..i + 1][..i] == group[..i];
      weightedSum := weightedSum + Scale(Component(group[i].embedding, offset), Weight(group[i]));
    }
    assert group[..|group|] == group;
  }

  lemma UndoScale(x: real, weight: nat)
    requires weight > 0
    ensures Scale(x / weight as real, weight) == x
  {
  }

  // ----- the document -----------------------------------------------------------------------------------

  datatype Document = Document(embeddings: seq<Vector>, tokenCounts: seq<Option<nat>>, totalTokens: Option<int>)

  datatype DocumentError = UnassignableUsage | MissingIdentity

  // What one input contributes to the document.
  ghost predicate EntryOk(group: seq<Part>, embedding: Vector, tokens: Option<nat>) {
    if Unresolved(group) then tokens == None && group != [] && embedding == group[0].embedding
    else tokens == Some(SumTokens(group)) && IsAverage(group, embedding)
  }

  // Usage the provider only reported in total can stand for unsplit inputs alone,
  // and the first such input also has to say which endpoint ran it.
  ghost predicate Reportable(parts: seq<Part>, s: nat, providerTotal: Option<int>) {
    var group := Group(parts, s);
    Unresolved(group) ==>
      |group| == 1 && providerTotal.Some? && (FirstUnresolved(parts, s) ==> group[0].hasAgent)
  }

  ghost predicate StopsAt(parts: seq<Part>, s: nat, providerTotal: Option<int>, error: DocumentError) {
    && !Reportable(parts, s, providerTotal) && (forall r: nat :: r < s ==> Reportable(parts, r, providerTotal))
    && error == ErrorOf(Group(parts, s), providerTotal)
  }

  function ErrorOf(group: seq<Part>, providerTotal: Option<int>): DocumentError {
    if |group| != 1 || providerTotal.None? then UnassignableUsage else MissingIdentity
  }

  ghost predicate FirstUnresolved(parts: seq<Part>, s: nat) {
    Unresolved(Group(parts, s)) && forall r: nat :: r < s ==> !Unresolved(Group(parts, r))
  }

  method BuildDocument(items: seq<Item>, requests: seq<Request>, inputCount: nat, count: TextSplitter.Counter, providerTotal: Option<int>)
      returns (result: Result<Document, DocumentError>)
    ensures result.Ok? ==>
      && |result.value.embeddings| == |result.value.tokenCounts| == inputCount
      && forall s: nat :: s < inputCount ==>
           EntryOk(Group(Parts(items, requests, count), s), result.value.embeddings[s], result.value.tokenCounts[s])
    ensures result.Ok? ==>
      result.value.totalTokens == (if None in result.value.tokenCounts then providerTotal else Some(SumCounts(result.value.tokenCounts)))
    ensures result.Ok? <==> forall s: nat :: s < inputCount ==> Reportable(Parts(items, requests, count), s, providerTotal)
    // with every count known there is a document, and its total is the sum over the inputs
    ensures (forall p :: p in Parts(items, requests, count) ==> p.tokens.Some?) ==> result.Ok? && None !in result.value.tokenCounts
    // the first input that cannot be reported decides the error
    ensures result.Err? ==>
      exists s: nat :: s < inputCount && StopsAt(Parts(items, requests, count), s, providerTotal, result.error)
  {
    hide Parts, Sort, Filter, Group, ByCustomId, IsAverage, SumTokens, Unresolved, ByPart, HasSource;
    ghost var parts := Parts(items, requests, count);
    var bySource := PartsBySource(items, requests, count);
    KnownCounts(parts);
    var embeddings: seq<Vector>, tokenCounts: seq<Option<nat>> := [], [];
    var aggregateRecorded := false;
    for s := 0 to inputCount
      invariant |embeddings| == |tokenCounts| == s
      invariant forall r: nat :: r < s ==> EntryOk(Group(parts, r), embeddings[r], tokenCounts[r])
      invariant forall r: nat :: r < s ==> Reportable(parts, r, providerTotal)
      invariant aggregateRecorded <==> exists r: nat :: r < s && Unresolved(Group(parts, r))
      invariant None in tokenCounts ==> aggregateRecorded
    {
      var group := Sort(if s in bySource then bySource[s] else [], ByPart());
      GroupOf(parts, s);
      EmptyGroup();
      if group == [] {
        embeddings, tokenCounts := embeddings + [[]], tokenCounts + [Some(0)];
      } else if Unresolved(group) {
        if |group| != 1 || providerTotal.None? {
          assert StopsAt(parts, s, providerTotal, UnassignableUsage);
          return Err(UnassignableUsage);
        }
        if !aggregateRecorded {
          assert FirstUnresolved(parts, s);
          if !group[0].hasAgent {
            assert StopsAt(parts, s, providerTotal, MissingIdentity);
            return Err(MissingIdentity);
          }
          aggregateRecorded := true;
        }
        embeddings, tokenCounts := embeddings + [group[0].embedding], tokenCounts + [None];
      } else {
        var reduced := WeightedAverageEmbedding(group);
        var tokens := AddUpTokens(group);
        embeddings, tokenCounts := embeddings + [reduced], tokenCounts + [Some(tokens)];
      }
    }
    var sum := AddUpCounts(tokenCounts);
    return Ok(Document(embeddings, tokenCounts, if None in tokenCounts then providerTotal else Some(sum)));
  }

  lemma GroupOf(parts: seq<Part>, s: nat)
    ensures Group(parts, s) == Sort(Filter(HasSource(s), parts), ByPart())
  {
  }

  lemma KnownCounts(parts: seq<Part>)
    ensures (forall p :: p in parts ==> p.tokens.Some?) ==> forall s: nat :: !Unresolved(Group(parts, s))
  {
    hide Sort, Filter;
    if forall p :: p in parts ==> p.tokens.Some? {
      forall s: nat ensures !Unresolved(Group(parts, s)) {
        FilterMembers(HasSource(s), parts);
        SortPermutes(Filter(HasSource(s), parts), ByPart());
        forall p | p in Group(parts, s) ensures p.tokens.Some? {
          assert p in multiset(Group(parts, s));
          assert p in Filter(HasSource(s), parts);
        }
      }
    }
  }

  lemma EmptyGroup()
    ensures IsAverage([], []) && SumTokens([]) == 0 && !Unresolved([])
  {
  }

  method AddUpTokens(group: seq<Part>) returns (tokens: nat)
    ensures tokens == SumTokens(group)
  {
    tokens := 0;
    for i := 0 to |group|
      invariant tokens == SumTokens(group[..i])
    {
      assert group[..i + 1][..i] == group[..i];
      tokens := tokens + Tokens(group[i]);
    }
    assert group[..|group|] == group;
  }

  method AddUpCounts(counts: seq<Option<nat>>) returns (sum: nat)
    ensures sum == SumCounts(counts)
  {
    sum := 0;
    for i := 0 to |counts|
      invariant sum == SumCounts(counts[..i])
    {
      assert counts[..i + 1][..i] == counts[..i];
      sum := sum + if counts[i].Some? then counts[i].value else 0;
    }
    assert counts[..|counts|] == counts;
  }

  // The dictionary of parts by input, filled item by item in index order.
  method PartsBySource(items: seq<Item>, requests: seq<Request>, count: TextSplitter.Counter) returns (bySource: map<nat, seq<Part>>)
    ensures forall s: nat :: (if s in bySource then bySource[s] else []) == Filter(HasSource(s), Parts(items, requests, count))
  {
    hide Sort, ByCustomId, Filter;
    var ordered, byId := Sort(items, ByIndex()), ByCustomId(requests);
    ghost var parts := Parts(items, requests, count);
    bySource := map[];
    NothingFiltered();
    for i := 0 to |ordered|
      invariant forall s: nat :: (if s in bySource then bySource[s] else []) == Filter(HasSource(s), parts[..i])
    {
      var part := PartOf(ordered[i], Lookup(byId, ordered[i].customId), count);
      assert parts[..i + 1] == parts[..i] + [part];
      forall s: nat ensures Filter(HasSource(s), parts[..i + 1]) == Filter(HasSource(s), parts[..i]) + if s == part.source then [part] else [] {
        FilterSnoc(HasSource(s), parts[..i], part);
      }
      bySource := bySource[part.source := (if part.source in bySource then bySource[part.source] else []) + [part]];
    }
    assert parts[..|ordered|] == parts;
  }

  lemma NothingFiltered()
    ensures forall s: nat :: Filter(HasSource(s), []) == []
  {
  }

  // ----- every input gets its own parts back ---------------------------------------------------------------

  // Items and the requests they answer, position by position.
  function Paired(items: seq<Item>, requests: seq<Request>, count: TextSplitter.Counter): (r: seq<Part>)
    requires |items| == |requests|
    ensures |r| == |items| && forall i :: 0 <= i < |items| ==> r[i] == PartOf(items[i], Some(requests[i]), count)
  {
    seq(|items|, i requires 0 <= i < |items| => PartOf(items[i], Some(requests[i]), count))
  }

  // The items dealt out again to the inputs they came from.
  function Regrouped(items: seq<Item>, chunks: Chunks, agentId: Option<string>, ids: IdSource, count: TextSplitter.Counter): (r: seq<seq<Part>>)
    requires |items| == |BuiltRequests(chunks, agentId, ids)|
    ensures |r| == |chunks|
    decreases |chunks|
  {
    if chunks == [] then []
    else
      var n := |chunks| - 1;
      var m := |BuiltRequests(chunks[..n], agentId, ids)|;
      Regrouped(items[..m], chunks[..n], agentId, ids, count)
      + [Paired(items[m..], RequestsOfInput(chunks[n], n, agentId, ids), count)]
  }

  ghost predicate PartAnswers(part: Part, item: Item, chunk: TextSplitter.Chunk, agentId: Option<string>, count: TextSplitter.Counter) {
    && part.embedding == item.embedding
    && part.hasAgent == (agentId.Some? && agentId.value != "")
    && part.tokens ==
         if item.promptTokens > 0 then Some(item.promptTokens)
         else if chunk.tokens > 0 then Some(chunk.tokens)
         else if chunk.text == "" then Some(0)
         else match count(chunk.text)
           case None => None
           case Some(counted) => Some(if counted > 0 then counted else 0)
  }

  lemma LastInputParts(items: seq<Item>, parts: seq<TextSplitter.Chunk>, source: nat, agentId: Option<string>, ids: IdSource, count: TextSplitter.Counter)
    requires |items| == |parts|
    ensures var own := Paired(items, RequestsOfInput(parts, source, agentId, ids), count);
      forall k :: 0 <= k < |own| ==>
        && own[k].source == source && own[k].index == k && own[k].embedding == items[k].embedding
        && PartAnswers(own[k], items[k], parts[k], agentId, count)
  {
  }

  // Each input's own parts: as many as it was split into, in part order, each with the vector
  // of the item that stands at its request's place; and with that item's token count if there
  // is one, else the chunk's, else the tokenizer's.
  lemma {:induction false} RegroupedParts(
      items: seq<Item>, chunks: Chunks, agentId: Option<string>, ids: IdSource, count: TextSplitter.Counter, s: nat)
    requires |items| == |BuiltRequests(chunks, agentId, ids)| && s < |chunks|
    ensures var own, m := Regrouped(items, chunks, agentId, ids, count)[s], |Flatten(chunks[..s])|;
      && |own| == |chunks[s]| && m + |own| <= |items|
      && forall k :: 0 <= k < |own| ==>
           && own[k].source == s && own[k].index == k && own[k].embedding == items[m + k].embedding
           && PartAnswers(own[k], items[m + k], chunks[s][k], agentId, count)
    decreases |chunks|
  {
    hide PartOf, PartAnswers, Paired, Flatten, RequestsOfInput;
    var n := |chunks| - 1;
    var m := |BuiltRequests(chunks[..n], agentId, ids)|;
    BuiltLength(chunks[..n], agentId, ids);
    if s < n {
      RegroupedParts(items[..m], chunks[..n], agentId, ids, count, s);
      assert chunks[..n][..s] == chunks[..s];
    } else {
      LastInputParts(items[m..], chunks[n], n, agentId, ids, count);
      assert Regrouped(items, chunks, agentId, ids, count)[s] == Paired(items[m..], RequestsOfInput(chunks[n], n, agentId, ids), count);
    }
  }

  lemma {:induction false} RegroupedCoversAll(
      items: seq<Item>, chunks: Chunks, agentId: Option<string>, ids: IdSource, count: TextSplitter.Counter)
    requires |items| == |BuiltRequests(chunks, agentId, ids)|
    ensures Flatten(Regrouped(items, chunks, agentId, ids, count)) == Paired(items, BuiltRequests(chunks, agentId, ids), count)
    decreases |chunks|
  {
    hide PartOf;
    if chunks != [] {
      var left, right, last := LastInput(items, chunks, agentId, ids, count);
      RegroupedCoversAll(left, chunks[..|chunks| - 1], agentId, ids, count);
      FlattenSnoc(Regrouped(left, chunks[..|chunks| - 1], agentId, ids, count), Paired(right, last, count));
    }
  }

  lemma PairedAppend(left: seq<Item>, right: seq<Item>, front: seq<Request>, last: seq<Request>, count: TextSplitter.Counter)
    requires |left| == |front| && |right| == |last|
    ensures Paired(left + right, front + last, count) == Paired(left, front, count) + Paired(right, last, count)
  {
    hide PartOf;
    var whole, parts := Paired(left + right, front + last, count), Paired(left, front, count) + Paired(right, last, count);
    forall i | 0 <= i < |whole| ensures whole[i] == parts[i] {
      if i >= |front| { assert (left + right)[i] == right[i - |front|] && (front + last)[i] == last[i - |front|]; }
    }
  }

  // The items of the last input, and of those before it.
  lemma LastInput(items: seq<Item>, chunks: Chunks, agentId: Option<string>, ids: IdSource, count: TextSplitter.Counter)
      returns (left: seq<Item>, right: seq<Item>, last: seq<Request>)
    requires |items| == |BuiltRequests(chunks, agentId, ids)| && chunks != []
    ensures |left| == |BuiltRequests(chunks[..|chunks| - 1], agentId, ids)| && |right| == |last|
    ensures last == RequestsOfInput(chunks[|chunks| - 1], |chunks| - 1, agentId, ids)
    ensures Paired(items, BuiltRequests(chunks, agentId, ids), count)
         == Paired(left, BuiltRequests(chunks[..|chunks| - 1], agentId, ids), count) + Paired(right, last, count)
    ensures Regrouped(items, chunks, agentId, ids, count)
         == Regrouped(left, chunks[..|chunks| - 1], agentId, ids, count) + [Paired(right, last, count)]
  {
    hide PartOf, Paired, RequestsOfInput;
    var n := |chunks| - 1;
    var front := BuiltRequests(chunks[..n], agentId, ids);
    left, right, last := items[..|front|], items[|front|..], RequestsOfInput(chunks[n], n, agentId, ids);
    assert items == left + right;
    PairedAppend(left, right, front, last, count);
  }

  lemma {:induction false} GroupsAreRegrouped(
      items: seq<Item>, chunks: Chunks, agentId: Option<string>, ids: IdSource, count: TextSplitter.Counter, s: nat)
    requires |items| == |BuiltRequests(chunks, agentId, ids)|
    ensures Filter(HasSource(s), Paired(items, BuiltRequests(chunks, agentId, ids), count))
         == if s < |chunks| then Regrouped(items, chunks, agentId, ids, count)[s] else []
    decreases |chunks|
  {
    hide PartOf, Filter, Paired;
    if chunks == [] {
      FilterNone(HasSource(s), Paired(items, BuiltRequests(chunks, agentId, ids), count));
    } else {
      hide BuiltRequests, Regrouped, RequestsOfInput;
      var n := |chunks| - 1;
      var left, right, last := LastInput(items, chunks, agentId, ids, count);
      var before, own := Paired(left, BuiltRequests(chunks[..n], agentId, ids), count), Paired(right, last, count);
      GroupsAreRegrouped(left, chunks[..n], agentId, ids, count, s);
      FilterAppend(HasSource(s), before, own);
      RegroupedParts(items, chunks, agentId, ids, count, n);
      if s == n { FilterAll(HasSource(s), own); } else { FilterNone(HasSource(s), own); }
    }
  }

  lemma {:induction false} ByCustomIdFacts(requests: seq<Request>)
    requires forall i, j :: 0 <= i < j < |requests| ==> requests[i].customId != requests[j].customId
    ensures forall i :: 0 <= i < |requests| ==> Lookup(ByCustomId(requests), requests[i].customId) == Some(requests[i])
  {
    if requests != [] { ByCustomIdFacts(requests[..|requests| - 1]); }
  }

  lemma {:induction false} BuiltShareAgent(chunks: Chunks, agentId: Option<string>, ids: IdSource)
    ensures forall i :: 0 <= i < |BuiltRequests(chunks, agentId, ids)| ==> BuiltRequests(chunks, agentId, ids)[i].agentId == agentId
  {
    if chunks != [] { BuiltShareAgent(chunks[..|chunks| - 1], agentId, ids); }
  }

  // Whatever order the provider answered in, a retrieval that did not raise gives each input
  // exactly its own parts, in part order.
  lemma EachInputGetsItsOwnParts(
      chunks: Chunks, agentId: Option<string>, ids: IdSource, digest: seq<nat> -> string,
      entries: seq<Entry>, items: seq<Item>, count: TextSplitter.Counter, s: nat)
    requires var tracked := Submit(BuiltRequests(chunks, agentId, ids), digest);
      Distinct(tracked.order) && InOrder(tracked, entries, items)
    requires s < |chunks|
    ensures |items| == |BuiltRequests(chunks, agentId, ids)|
    ensures Parts(items, BuiltRequests(chunks, agentId, ids), count) == Paired(items, BuiltRequests(chunks, agentId, ids), count)
    ensures Group(Parts(items, BuiltRequests(chunks, agentId, ids), count), s) == Regrouped(items, chunks, agentId, ids, count)[s]
    ensures var own, m := Group(Parts(items, BuiltRequests(chunks, agentId, ids), count), s), |Flatten(chunks[..s])|;
      && |own| == |chunks[s]| && m + |own| <= |items|
      && forall k :: 0 <= k < |own| ==>
           && own[k].source == s && own[k].index == k && own[k].embedding == items[m + k].embedding
           && PartAnswers(own[k], items[m + k], chunks[s][k], agentId, count)
  {
    hide Sort, Filter, PartOf, BuiltRequests, ByCustomId, PartAnswers;
    var requests := BuiltRequests(chunks, agentId, ids);
    BuiltShareAgent(chunks, agentId, ids);
    AnsweredInPlace(requests, digest, entries, items, count);
    GroupsAreRegrouped(items, chunks, agentId, ids, count, s);
    RegroupedParts(items, chunks, agentId, ids, count, s);
    SortOfSorted(Regrouped(items, chunks, agentId, ids, count)[s], ByPart());
  }

  lemma AnsweredInPlace(requests: seq<Request>, digest: seq<nat> -> string, entries: seq<Entry>, items: seq<Item>, count: TextSplitter.Counter)
    requires Distinct(WireIds(requests, digest)) && InOrder(Submit(requests, digest), entries, items)
    requires forall i, j :: 0 <= i < j < |requests| ==> requests[i].agentId == requests[j].agentId
    ensures |items| == |requests| && Parts(items, requests, count) == Paired(items, requests, count)
  {
    hide Sort, WireId, PartOf, ByCustomId;
    ByWireIdFacts(requests, digest);
    WireIdsTellRequestsApart(requests, digest);
    ByCustomIdFacts(requests);
    SortOfSorted(items, ByIndex());
    forall i | 0 <= i < |items| ensures Lookup(ByCustomId(requests), items[i].customId) == Some(requests[i]) {
      assert items[i].customId == requests[i].customId;
    }
  }

  // ----- conservation ----------------------------------------------------------------------------------------

  lemma {:induction false} SumTokensAppend(a: seq<Part>, b: seq<Part>)
    ensures SumTokens(a + b) == SumTokens(a) + SumTokens(b)
  {
    if b == [] {
      assert a + b == a;
    } else {
      var n := |b| - 1;
      assert (a + b)[..|a + b| - 1] == a + b[..n];
      SumTokensAppend(a, b[..n]);
    }
  }

  lemma SumsOfOne(p: Part, count: Option<nat>, offset: nat)
    ensures p.tokens.Some? ==> SumTokens([p]) == p.tokens.value
    ensures count.Some? ==> SumCounts([count]) == count.value
    ensures TotalWeight([p]) == if p.tokens.Some? && p.tokens.value > 1 then p.tokens.value else 1
    ensures WeightedSum([p], offset) == if offset < |p.embedding| then p.embedding[offset] * TotalWeight([p]) as real else 0.0
    ensures Dimension([p]) == |p.embedding|
  {
    hide Scale;
    assert [p][..0] == [];
    assert [count][..0] == [];
    ScaleMeans(Component(p.embedding, offset), Weight(p));
  }

  lemma ScaleMeans(x: real, weight: nat)
    ensures Scale(x, weight) == x * weight as real
    ensures Scale(0.0, weight) == 0.0
  {
  }

  lemma {:induction false} WeightsAppend(a: seq<Part>, b: seq<Part>, offset: nat)
    ensures TotalWeight(a + b) == TotalWeight(a) + TotalWeight(b)
    ensures WeightedSum(a + b, offset) == WeightedSum(a, offset) + WeightedSum(b, offset)
  {
    hide Scale, Weight, Component;
    if b == [] {
      assert a + b == a;
    } else {
      var n := |b| - 1;
      assert (a + b)[..|a + b| - 1] == a + b[..n];
      WeightsAppend(a, b[..n], offset);
    }
  }

  // An average of one part is that part's vector.
  lemma AverageOfOne(p: Part, reduced: Vector)
    requires IsAverage([p], reduced)
    ensures reduced == p.embedding
  {
    hide WeightedSum, TotalWeight, Dimension, Scale;
    SumsOfOne(p, None, 0);
    TotalWeightIsPositive([p]);
    forall offset | 0 <= offset < |reduced| ensures reduced[offset] == p.embedding[offset] {
      SumsOfOne(p, None, offset);
      assert IsMean([p], offset, reduced[offset]);
      ScaleMeans(p.embedding[offset], TotalWeight([p]));
      if reduced[offset] < p.embedding[offset] { ScaleIsMonotone(reduced[offset], p.embedding[offset], TotalWeight([p])); }
      if reduced[offset] > p.embedding[offset] { ScaleIsMonotone(p.embedding[offset], reduced[offset], TotalWeight([p])); }
    }
  }

  // An average of two is weighted by their token counts, an unknown or zero count weighing one,
  // with the shorter vector continued by zeros.
  lemma AverageOfTwo(p: Part, q: Part, reduced: Vector, offset: nat)
    requires IsAverage([p, q], reduced) && offset < |reduced|
    ensures |reduced| == if |p.embedding| < |q.embedding| then |q.embedding| else |p.embedding|
    ensures var u, v := if p.tokens.Some? && p.tokens.value > 1 then p.tokens.value else 1,
                        if q.tokens.Some? && q.tokens.value > 1 then q.tokens.value else 1;
      reduced[offset] * (u + v) as real
      == (if offset < |p.embedding| then p.embedding[offset] * u as real else 0.0)
         + (if offset < |q.embedding| then q.embedding[offset] * v as real else 0.0)
  {
    hide Scale, WeightedSum, TotalWeight;
    assert [p, q] == [p] + [q];
    SumsOfOne(p, None, offset);
    SumsOfOne(q, None, offset);
    WeightsAppend([p], [q], offset);
    assert IsMean([p, q], offset, reduced[offset]);
    ScaleMeans(reduced[offset], TotalWeight([p, q]));
    assert [p, q][..1] == [p];
  }

  // When every count is known, the counts of the inputs add up to the counts of the parts.
  lemma {:induction false} TokensAreConserved(groups: seq<seq<Part>>, counts: seq<Option<nat>>)
    requires |counts| == |groups| && forall s :: 0 <= s < |groups| ==> counts[s] == Some(SumTokens(groups[s]))
    ensures SumCounts(counts) == SumTokens(Flatten(groups))
  {
    if groups != [] {
      var n := |groups| - 1;
      TokensAreConserved(groups[..n], counts[..n]);
      assert groups == groups[..n] + [groups[n]];
      FlattenSnoc(groups[..n], groups[n]);
      SumTokensAppend(Flatten(groups[..n]), groups[n]);
    }
  }

  // The document's grand total is the sum over every submitted part.
  lemma GrandTotalIsSumOfParts(
      chunks: Chunks, agentId: Option<string>, ids: IdSource, digest: seq<nat> -> string,
      entries: seq<Entry>, items: seq<Item>, count: TextSplitter.Counter, document: Document)
    requires var tracked := Submit(BuiltRequests(chunks, agentId, ids), digest);
      Distinct(tracked.order) && InOrder(tracked, entries, items)
    requires |document.embeddings| == |document.tokenCounts| == |chunks| && None !in document.tokenCounts
    requires forall s: nat :: s < |chunks| ==>
      EntryOk(Group(Parts(items, BuiltRequests(chunks, agentId, ids), count), s), document.embeddings[s], document.tokenCounts[s])
    ensures |items| == |BuiltRequests(chunks, agentId, ids)|
    ensures SumCounts(document.tokenCounts) == SumTokens(Paired(items, BuiltRequests(chunks, agentId, ids), count))
  {
    hide Group, Parts, Sort, IsAverage, SumTokens, SumCounts, InOrder, BuiltRequests, WireId;
    BuiltShareAgent(chunks, agentId, ids);
    AnsweredInPlace(BuiltRequests(chunks, agentId, ids), digest, entries, items, count);
    var groups := Regrouped(items, chunks, agentId, ids, count);
    forall s: nat | s < |chunks| ensures document.tokenCounts[s] == Some(SumTokens(groups[s])) {
      EachInputGetsItsOwnParts(chunks, agentId, ids, digest, entries, items, count, s);
      assert document.tokenCounts[s] in document.tokenCounts;
    }
    TokensAreConserved(groups, document.tokenCounts);
    RegroupedCoversAll(items, chunks, agentId, ids, count);
  }

  // An input that was not split gets back the very vector that its one request was answered with.
  lemma UnsplitInputKeepsItsVector(
      chunks: Chunks, agentId: Option<string>, ids: IdSource, digest: seq<nat> -> string,
      entries: seq<Entry>, items: seq<Item>, count: TextSplitter.Counter, s: nat, embedding: Vector, tokens: Option<nat>)
    requires var tracked := Submit(BuiltRequests(chunks, agentId, ids), digest);
      Distinct(tracked.order) && InOrder(tracked, entries, items)
    requires s < |chunks| && |chunks[s]| == 1
    requires EntryOk(Group(Parts(items, BuiltRequests(chunks, agentId, ids), count), s), embedding, tokens)
    ensures |Flatten(chunks[..s])| < |items| && embedding == items[|Flatten(chunks[..s])|].embedding
    ensures items[|Flatten(chunks[..s])|].promptTokens > 0 ==> tokens == Some(items[|Flatten(chunks[..s])|].promptTokens)
  {
    hide Parts, Group, IsAverage, SumTokens, InOrder, WireId, BuiltRequests, Regrouped, Submit, Flatten;
    EachInputGetsItsOwnParts(chunks, agentId, ids, digest, entries, items, count, s);
    RegroupedParts(items, chunks, agentId, ids, count, s);
    var own := Group(Parts(items, BuiltRequests(chunks, agentId, ids), count), s);
    assert own == [own[0]];
    SumsOfOne(own[0], None, 0);
    if !Unresolved(own) { AverageOfOne(own[0], embedding); }
    assert own[0] in own;
  }

  // ----- the hull ------------------------------------------------------------------------------------------------

  lemma {:induction false} WeightedSumInHull(group: seq<Part>, offset: nat, low: real, high: real)
    requires forall i :: 0 <= i < |group| ==> low <= Component(group[i].embedding, offset) <= high
    ensures Scale(low, TotalWeight(group)) <= WeightedSum(group, offset) <= Scale(high, TotalWeight(group))
  {
    hide Component, Weight, Scale;
    if group == [] {
      ScaleByNothing(low);
      ScaleByNothing(high);
    } else {
      var n := |group| - 1;
      var x, w, before := Component(group[n].embedding, offset), Weight(group[n]), TotalWeight(group[..n]);
      WeightedSumInHull(group[..n], offset, low, high);
      ScaleIsMonotone(low, x, w);
      ScaleIsMonotone(x, high, w);
      ScaleDistributes(low, before, w);
      ScaleDistributes(high, before, w);
    }
  }

  lemma ScaleByNothing(x: real)
    ensures Scale(x, 0) == 0.0
  {
  }

  lemma ScaleDistributes(x: real, a: nat, b: nat)
    ensures Scale(x, a + b) == Scale(x, a) + Scale(x, b)
  {
  }

  lemma ScaleIsMonotone(a: real, b: real, weight: nat)
    requires a <= b
    ensures Scale(a, weight) <= Scale(b, weight)
    ensures a < b && weight > 0 ==> Scale(a, weight) < Scale(b, weight)
  {
  }

  // Each reduced component lies between the smallest and the largest of that component in the
  // parts, a missing component counting as zero.
  lemma AverageInHull(group: seq<Part>, reduced: Vector, offset: nat, low: real, high: real)
    requires IsAverage(group, reduced) && offset < |reduced|
    requires forall i :: 0 <= i < |group| ==> low <= Component(group[i].embedding, offset) <= high
    ensures low <= reduced[offset] <= high
  {
    hide Component, WeightedSum, TotalWeight, Dimension, Scale;
    assert group != [] by { EmptyHasNoDimension(); }
    WeightedSumInHull(group, offset, low, high);
    assert IsMean(group, offset, reduced[offset]);
    if reduced[offset] < low { ScaleIsMonotone(reduced[offset], low, TotalWeight(group)); }
    if high < reduced[offset] { ScaleIsMonotone(high, reduced[offset], TotalWeight(group)); }
  }

  lemma EmptyHasNoDimension()
    ensures Dimension([]) == 0
  {
  }
}
