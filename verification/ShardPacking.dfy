// Greedy packing of embedding requests into provider shards
// (contextual_orchestrator/cost_router.py, _run_provider_embeddings).

module ShardPacking {
  import opened Prelude

  datatype Request = Request(inputText: string, tokenCount: nat)

  datatype Limits = Limits(maxTokens: nat, maxInputs: nat)

  type Vector = seq<real>

  // What one provider call returns: the vectors and the tokens it charges for.
  datatype ShardResult = ShardResult(vectors: seq<Vector>, promptTokens: nat)

  // Every shard of a run in call order, either completed or stopped at the first error.
  type Embedder<!E> = seq<Request> -> Result<ShardResult, E>

  function RequestTokens(request: Request): nat {
    if request.tokenCount != 0 then request.tokenCount else |Utf8(request.inputText)|
  }

  function ShardTokens(shard: seq<Request>): nat {
    if shard == [] then 0 else RequestTokens(shard[0]) + ShardTokens(shard[1..])
  }

  ghost predicate Legal(shard: seq<Request>, limits: Limits) {
    |shard| == 1 || (1 <= |shard| <= limits.maxInputs && ShardTokens(shard) <= limits.maxTokens)
  }

  // A split of the request list into contiguous legal shards.
  ghost predicate LegalSplit(shards: seq<seq<Request>>, requests: seq<Request>, limits: Limits) {
    Flatten(shards) == requests && forall i :: 0 <= i < |shards| ==> Legal(shards[i], limits)
  }

  // The shards the greedy loop still emits when `shard` is open and `rest` is unread.
  function Packed(shard: seq<Request>, rest: seq<Request>, limits: Limits): seq<seq<Request>>
    decreases rest
  {
    if rest == [] then (if shard == [] then [] else [shard])
    else if shard != [] && Overflows(shard, rest[0], limits) then [shard] + Packed([rest[0]], rest[1..], limits)
    else Packed(shard + [rest[0]], rest[1..], limits)
  }

  predicate Overflows(shard: seq<Request>, next: Request, limits: Limits) {
    |shard| >= limits.maxInputs || ShardTokens(shard) + RequestTokens(next) > limits.maxTokens
  }

  // Calls the provider shard by shard, concatenating vectors and adding up usage.
  function RunShards<E>(shards: seq<seq<Request>>, embed: Embedder<E>): Result<ShardResult, E> {
    if shards == [] then Ok(ShardResult([], 0))
    else match embed(shards[0])
      case Err(e) => Err(e)
      case Ok(first) =>
        match RunShards(shards[1..], embed)
        case Err(e) => Err(e)
        case Ok(others) => Ok(ShardResult(first.vectors + others.vectors, first.promptTokens + others.promptTokens))
  }

  // ----- the run ------------------------------------------------------------

  method RunProviderEmbeddings<E>(requests: seq<Request>, limits: Limits, embed: Embedder<E>)
      returns (result: Result<ShardResult, E>)
    ensures result == RunShards(Packed([], requests, limits), embed)
  {
    hide RunShards, Packed, RequestTokens;
    var vectors: seq<Vector>, promptTokens: nat := [], 0;
    var shard, shardTokens: nat := [], 0;
    var i := 0;
    assert requests[0..] == requests;
    AfterNothing(Remaining([], requests, limits, embed));
    while i < |requests|
      invariant 0 <= i <= |requests|
      invariant shardTokens == ShardTokens(shard)
      invariant Remaining([], requests, limits, embed)
             == After(ShardResult(vectors, promptTokens), Remaining(shard, requests[i..], limits, embed))
    {
      var request := requests[i];
      var requestTokens := RequestTokens(request);
      assert requests[i..] == [request] + requests[i + 1..];
      RemainingStep(shard, request, requests[i + 1..], limits, embed);
      if shard != [] && (|shard| >= limits.maxInputs || shardTokens + requestTokens > limits.maxTokens) {
        match embed(shard) {
          case Err(e) => return Err(e);
          case Ok(part) =>
            AfterCompose(ShardResult(vectors, promptTokens), part, Remaining([request], requests[i + 1..], limits, embed));
            vectors, promptTokens := vectors + part.vectors, promptTokens + part.promptTokens;
        }
        shard, shardTokens := [], 0;
        assert shard + [request] == [request];
      }
      ShardTokensSnoc(shard, request);
      shard, shardTokens := shard + [request], shardTokens + requestTokens;
      i := i + 1;
    }
    assert requests[i..] == [];
    AfterLast(ShardResult(vectors, promptTokens), shard, limits, embed);
    if shard != [] {
      match embed(shard) {
        case Err(e) => return Err(e);
        case Ok(part) =>
          vectors, promptTokens := vectors + part.vectors, promptTokens + part.promptTokens;
      }
    }
    return Ok(ShardResult(vectors, promptTokens));
  }

  // The outcome of everything not yet sent when `shard` is open and `rest` is unread.
  ghost function Remaining<E>(shard: seq<Request>, rest: seq<Request>, limits: Limits, embed: Embedder<E>)
    : Result<ShardResult, E>
  {
    RunShards(Packed(shard, rest, limits), embed)
  }

  ghost function After<E>(done: ShardResult, later: Result<ShardResult, E>): Result<ShardResult, E> {
    match later
    case Err(e) => Err(e)
    case Ok(r) => Ok(ShardResult(done.vectors + r.vectors, done.promptTokens + r.promptTokens))
  }

  lemma AfterNothing<E>(later: Result<ShardResult, E>)
    ensures After(ShardResult([], 0), later) == later
  {
    if later.Ok? { assert [] + later.value.vectors == later.value.vectors; }
  }

  lemma AfterLast<E>(done: ShardResult, shard: seq<Request>, limits: Limits, embed: Embedder<E>)
    ensures After(done, Remaining([], [], limits, embed)) == Ok(done)
    ensures shard != [] ==> After(done, Remaining(shard, [], limits, embed)) == After(done, embed(shard))
  {
    assert done.vectors + [] == done.vectors;
    if shard != [] {
      assert [shard][1..] == [];
      if embed(shard).Ok? {
        var part := embed(shard).value;
        assert part.vectors + [] == part.vectors;
      }
    }
  }

  lemma RemainingStep<E>(shard: seq<Request>, next: Request, later: seq<Request>, limits: Limits, embed: Embedder<E>)
    ensures Remaining(shard, [next] + later, limits, embed)
         == if shard != [] && Overflows(shard, next, limits)
            then (match embed(shard)
                  case Err(e) => Err(e)
                  case Ok(part) => After(part, Remaining([next], later, limits, embed)))
            else Remaining(shard + [next], later, limits, embed)
  {
    assert ([next] + later)[1..] == later;
    var tail := Packed([next], later, limits);
    assert ([shard] + tail)[1..] == tail;
  }

  lemma AfterCompose<E>(a: ShardResult, b: ShardResult, later: Result<ShardResult, E>)
    ensures After(a, After(b, later)) == After(ShardResult(a.vectors + b.vectors, a.promptTokens + b.promptTokens), later)
  {
    if later.Ok? {
      assert a.vectors + (b.vectors + later.value.vectors) == (a.vectors + b.vectors) + later.value.vectors;
    }
  }

  // ----- what the packing guarantees -----------------------------------------

  lemma {:induction false} ShardTokensAppend(a: seq<Request>, b: seq<Request>)
    ensures ShardTokens(a + b) == ShardTokens(a) + ShardTokens(b)
  {
    if a == [] {
      assert a + b == b;
    } else {
      assert (a + b)[1..] == a[1..] + b;
      ShardTokensAppend(a[1..], b);
    }
  }

  lemma ShardTokensSnoc(shard: seq<Request>, request: Request)
    ensures ShardTokens(shard + [request]) == ShardTokens(shard) + RequestTokens(request)
  {
    ShardTokensAppend(shard, [request]);
    assert [request][1..] == [];
  }

  // Packing keeps every request once and in order, inside legal shards only.
  lemma {:induction false} PackedIsLegalSplit(shard: seq<Request>, rest: seq<Request>, limits: Limits)
    requires shard == [] || Legal(shard, limits)
    ensures LegalSplit(Packed(shard, rest, limits), shard + rest, limits)
    decreases rest
  {
    if rest == [] {
      assert shard + rest == shard;
      if shard != [] { assert [shard][1..] == []; }
    } else {
      var next, later := rest[0], rest[1..];
      if shard != [] && Overflows(shard, next, limits) {
        PackedIsLegalSplit([next], later, limits);
        var tail := Packed([next], later, limits);
        assert ([shard] + tail)[1..] == tail;
        assert shard + rest == shard + ([next] + later);
      } else {
        ShardTokensSnoc(shard, next);
        PackedIsLegalSplit(shard + [next], later, limits);
        assert shard + rest == (shard + [next]) + later;
      }
    }
  }

  // A request counts its own tokens if it knows them, else the bytes of its text.
  lemma TokensOfOne(request: Request)
    ensures request.tokenCount > 0 ==> ShardTokens([request]) == request.tokenCount
    ensures request.tokenCount == 0 ==> ShardTokens([request]) == |Utf8(request.inputText)|
    ensures ShardTokens([]) == 0
  {
    assert [request][1..] == [];
  }

  // The run of a list is its first shard's call, then the run of the others.
  lemma RunStep<E>(shard: seq<Request>, others: seq<seq<Request>>, embed: Embedder<E>)
    ensures embed(shard).Err? ==> RunShards([shard] + others, embed) == embed(shard)
    ensures embed(shard).Ok? ==> RunShards([shard] + others, embed) == After(embed(shard).value, RunShards(others, embed))
  {
    assert ([shard] + others)[1..] == others;
  }

  lemma {:induction false} RunAppend<E>(a: seq<seq<Request>>, b: seq<seq<Request>>, embed: Embedder<E>)
    ensures RunShards(a, embed).Err? ==> RunShards(a + b, embed) == RunShards(a, embed)
    ensures RunShards(a, embed).Ok? ==> RunShards(a + b, embed) == After(RunShards(a, embed).value, RunShards(b, embed))
  {
    hide RunShards, After;
    if a == [] {
      assert a + b == b;
      RunOfOne([], embed);
      AfterNothing(RunShards(b, embed));
    } else {
      assert a == [a[0]] + a[1..] && a + b == [a[0]] + (a[1..] + b);
      RunStep(a[0], a[1..], embed);
      RunStep(a[0], a[1..] + b, embed);
      RunAppend(a[1..], b, embed);
      if embed(a[0]).Ok? { AfterTwice(embed(a[0]).value, RunShards(a[1..], embed), RunShards(b, embed)); }
    }
  }

  lemma AfterTwice<E>(first: ShardResult, middle: Result<ShardResult, E>, last: Result<ShardResult, E>)
    ensures middle.Err? ==> After(first, middle) == middle
    ensures middle.Ok? ==> After(first, middle).Ok? && After(first, After(middle.value, last)) == After(After(first, middle).value, last)
  {
    if middle.Ok? { AfterCompose(first, middle.value, last); }
  }

  // Shards run one after the other: the first error ends the run, else the vectors follow each
  // other and the usage adds up.
  lemma RunOfLists<E>(a: seq<seq<Request>>, b: seq<seq<Request>>, embed: Embedder<E>)
    ensures RunShards(a, embed).Err? ==> RunShards(a + b, embed) == RunShards(a, embed)
    ensures RunShards(a, embed).Ok? && RunShards(b, embed).Err? ==> RunShards(a + b, embed) == RunShards(b, embed)
    ensures RunShards(a, embed).Ok? && RunShards(b, embed).Ok? ==>
      && RunShards(a + b, embed).Ok?
      && RunShards(a + b, embed).value.vectors == RunShards(a, embed).value.vectors + RunShards(b, embed).value.vectors
      && RunShards(a + b, embed).value.promptTokens == RunShards(a, embed).value.promptTokens + RunShards(b, embed).value.promptTokens
  {
    hide RunShards;
    RunAppend(a, b, embed);
  }

  lemma RunOfOne<E>(shard: seq<Request>, embed: Embedder<E>)
    ensures RunShards([shard], embed) == embed(shard)
    ensures RunShards([], embed) == Ok(ShardResult([], 0))
  {
    assert [shard][1..] == [];
    if embed(shard).Ok? { assert embed(shard).value.vectors + [] == embed(shard).value.vectors; }
  }

  // A legal shard of two or more requests contains no window that overflows.
  lemma WindowOfLegalShard(before: seq<Request>, window: seq<Request>, after: seq<Request>, limits: Limits)
    requires |window| >= 2 && Legal(before + window + after, limits)
    ensures |window| <= limits.maxInputs && ShardTokens(window) <= limits.maxTokens
  {
    ShardTokensAppend(before + window, after);
    ShardTokensAppend(before, window);
  }

  // Greedy stays ahead: against any legal split of a list ending in `shard + rest`,
  // the greedy loop needs no more shards than that split has.
  lemma {:induction false} GreedyStaysAhead(
      before: seq<Request>, shard: seq<Request>, rest: seq<Request>, other: seq<seq<Request>>, limits: Limits)
    requires LegalSplit(other, before + shard + rest, limits)
    ensures |Packed(shard, rest, limits)| <= |other|
    decreases rest
  {
    if rest == [] {
      if shard != [] { assert (before + shard + rest) != []; }
    } else {
      var next, later := rest[0], rest[1..];
      if shard != [] && Overflows(shard, next, limits) {
        var whole := before + shard + rest;
        var first := other[0];
        var cut := |before| + |shard|;
        assert whole == first + Flatten(other[1..]);
        if |first| > cut {
          var after := first[cut + 1..];
          assert first == whole[..|first|];
          assert first == before + (shard + [next]) + after;
          WindowOfLegalShard(before, shard + [next], after, limits);
          ShardTokensSnoc(shard, next);
          assert false;
        }
        var skipped := whole[|first|..cut];
        assert Flatten(other[1..]) == whole[|first|..];
        assert whole[|first|..] == skipped + [next] + later;
        GreedyStaysAhead(skipped, [next], later, other[1..], limits);
      } else {
        assert before + shard + rest == before + (shard + [next]) + later;
        GreedyStaysAhead(before, shard + [next], later, other, limits);
      }
    }
  }

  // The shards of a run are a legal split, and no legal split is shorter.
  lemma GreedyPackingIsOptimal(requests: seq<Request>, limits: Limits)
    ensures LegalSplit(Packed([], requests, limits), requests, limits)
    ensures forall other :: LegalSplit(other, requests, limits) ==> |Packed([], requests, limits)| <= |other|
  {
    PackedIsLegalSplit([], requests, limits);
    assert [] + requests == requests;
    forall other | LegalSplit(other, requests, limits)
      ensures |Packed([], requests, limits)| <= |other|
    {
      assert [] + [] + requests == requests;
      GreedyStaysAhead([], [], requests, other, limits);
    }
  }

  // When every provider call returns one vector per input, so does the whole run, and
  // the vector of each shard's k-th request sits at that request's own position.
  lemma {:induction false} RunKeepsRequestOrder<E>(shards: seq<seq<Request>>, embed: Embedder<E>, s: nat, k: nat)
    requires RunShards(shards, embed).Ok?
    requires forall shard :: embed(shard).Ok? ==> |embed(shard).value.vectors| == |shard|
    requires s < |shards| && k < |shards[s]|
    ensures embed(shards[s]).Ok?
    ensures |RunShards(shards, embed).value.vectors| == |Flatten(shards)|
    ensures |Flatten(shards[..s])| + k < |Flatten(shards)|
    ensures Flatten(shards)[|Flatten(shards[..s])| + k] == shards[s][k]
    ensures RunShards(shards, embed).value.vectors[|Flatten(shards[..s])| + k] == embed(shards[s]).value.vectors[k]
  {
    RunLength(shards[1..], embed);
    if s == 0 {
      assert shards[..0] == [];
    } else {
      RunKeepsRequestOrder(shards[1..], embed, s - 1, k);
      assert shards[..s] == [shards[0]] + shards[1..][..s - 1];
      assert shards[..s][1..] == shards[1..][..s - 1];
    }
  }

  lemma {:induction false} RunLength<E>(shards: seq<seq<Request>>, embed: Embedder<E>)
    requires RunShards(shards, embed).Ok?
    requires forall shard :: embed(shard).Ok? ==> |embed(shard).value.vectors| == |shard|
    ensures |RunShards(shards, embed).value.vectors| == |Flatten(shards)|
  {
    if shards != [] { RunLength(shards[1..], embed); }
  }
}
