// Splitting one embedding input into token-safe parts
// (contextual_orchestrator/cost_router.py, _split_embedding_input and _force_token_safe_chunks).

module TextSplitter {
  import opened Prelude

  datatype CountError = Unavailable | NonPositive

  // The authoritative tokenizer: any deterministic function, None where it cannot count.
  type Counter = string -> Option<int>

  // The Unicode white-space test behind the unit pattern.
  type SpaceTest = char -> bool

  datatype Limits = Limits(maxTokens: nat, maxChars: nat)

  datatype Chunk = Chunk(text: string, tokens: nat)

  function Joined(chunks: seq<Chunk>): string {
    if chunks == [] then "" else chunks[0].text + Joined(chunks[1..])
  }

  function CountTokens(text: string, count: Counter): Result<nat, CountError> {
    match count(text)
    case None => Err(Unavailable)
    case Some(value) =>
      if text != "" && value <= 0 then Err(NonPositive) else Ok(if value < 0 then 0 else value)
  }

  // A part the provider accepts: short enough, and small enough unless it is one character.
  ghost predicate Safe(chunk: Chunk, count: Counter, limits: Limits) {
    && chunk.text != ""
    && |chunk.text| <= limits.maxChars
    && chunk.tokens >= 1 && count(chunk.text) == Some(chunk.tokens)
    && (chunk.tokens <= limits.maxTokens || |chunk.text| == 1)
  }

  ghost predicate AllSafe(chunks: seq<Chunk>, count: Counter, limits: Limits) {
    forall i :: 0 <= i < |chunks| ==> Safe(chunks[i], count, limits)
  }

  ghost predicate IsPieceOf(piece: string, text: string) {
    exists i, j :: 0 <= i <= j <= |text| && text[i..j] == piece
  }

  // The tokenizer failed in this way on some non-empty piece of the text.
  ghost predicate FailsWith(e: CountError, count: Counter, text: string) {
    exists piece: string ::
      piece != "" && IsPieceOf(piece, text) && (if e == Unavailable then count(piece) == None else count(piece).Some? && count(piece).value <= 0)
  }

  lemma SliceOfSlice(text: string, i: nat, j: nat, k: nat, l: nat)
    requires i <= j <= |text| && k <= l <= j - i
    ensures text[i..j][k..l] == text[i + k..i + l]
  {
    var inner, outer := text[i..j][k..l], text[i + k..i + l];
    forall n | 0 <= n < l - k ensures inner[n] == outer[n] { assert inner[n] == text[i..j][k + n]; }
  }

  lemma PieceOfPiece(piece: string, part: string, text: string)
    requires IsPieceOf(piece, part) && IsPieceOf(part, text)
    ensures IsPieceOf(piece, text)
  {
    var i, j :| 0 <= i <= j <= |text| && text[i..j] == part;
    var k, l :| 0 <= k <= l <= |part| && part[k..l] == piece;
    SliceOfSlice(text, i, j, k, l);
  }

  // What fails on a part fails on the text around it.
  lemma FailsOnWhole(e: CountError, count: Counter, part: string, text: string)
    requires FailsWith(e, count, part) && IsPieceOf(part, text)
    ensures FailsWith(e, count, text)
  {
    var piece: string :|
      piece != "" && IsPieceOf(piece, part) && (if e == Unavailable then count(piece) == None else count(piece).Some? && count(piece).value <= 0);
    PieceOfPiece(piece, part, text);
  }

  lemma MiddleIsPiece(before: string, middle: string, after: string)
    ensures IsPieceOf(middle, before + middle + after)
  {
    var text := before + middle + after;
    assert text[|before|..|before| + |middle|] == middle;
  }

  lemma FailsInMiddle(e: CountError, count: Counter, before: string, middle: string, after: string)
    requires FailsWith(e, count, middle)
    ensures FailsWith(e, count, before + middle + after)
  {
    hide IsPieceOf;
    MiddleIsPiece(before, middle, after);
    FailsOnWhole(e, count, middle, before + middle + after);
  }

  lemma WholeIsPiece(text: string)
    ensures IsPieceOf(text, text)
  {
    assert text[0..|text|] == text;
  }

  ghost predicate CorrectSplit(text: string, result: Result<seq<Chunk>, CountError>, count: Counter, limits: Limits) {
    match result
    case Ok(chunks) =>
      && Joined(chunks) == text
      && (text == "" ==> chunks == [Chunk("", 0)])
      && (text != "" ==> AllSafe(chunks, count, limits))
    case Err(e) => FailsWith(e, count, text)
  }

  // ----- units: a word with its trailing white space, or leading white space ----

  function SpanLength(text: string, test: SpaceTest, wanted: bool): (n: nat)
    ensures n <= |text|
  {
    if text == "" || test(text[0]) != wanted then 0 else 1 + SpanLength(text[1..], test, wanted)
  }

  function UnitLength(text: string, isSpace: SpaceTest): (n: nat)
    requires text != ""
    ensures 1 <= n <= |text|
  {
    var word := SpanLength(text, isSpace, false);
    word + SpanLength(text[word..], isSpace, true)
  }

  function Units(text: string, isSpace: SpaceTest): (units: seq<string>)
    ensures Flatten(units) == text
    ensures forall i :: 0 <= i < |units| ==> units[i] != ""
  {
    if text == "" then []
    else
      var n := UnitLength(text, isSpace);
      [text[..n]] + Units(text[n..], isSpace)
  }

  // No word begins inside the unit: no space in it is followed by anything else.
  ghost predicate OneWord(unit: string, isSpace: SpaceTest) {
    forall j :: 0 <= j < |unit| - 1 ==> !(isSpace(unit[j]) && !isSpace(unit[j + 1]))
  }

  // Between these two a word ends and the next begins.
  ghost predicate WordBoundary(left: string, right: string, isSpace: SpaceTest) {
    left != "" && right != "" && isSpace(left[|left| - 1]) && !isSpace(right[0])
  }

  // A word begins exactly where a unit does, apart from the first.
  lemma {:induction false} UnitsBeginAtWords(text: string, isSpace: SpaceTest)
    ensures forall i :: 0 <= i < |Units(text, isSpace)| ==> OneWord(Units(text, isSpace)[i], isSpace)
    ensures forall i :: 0 <= i < |Units(text, isSpace)| - 1 ==> WordBoundary(Units(text, isSpace)[i], Units(text, isSpace)[i + 1], isSpace)
  {
    hide UnitLength, OneWord, WordBoundary;
    if text != "" {
      var n := UnitLength(text, isSpace);
      UnitsBeginAtWords(text[n..], isSpace);
      assert OneWord(text[..n], isSpace) by { UnitIsOneWord(text, isSpace); }
      if n < |text| {
        FirstUnit(text[n..], isSpace);
        UnitEndsAtWord(text, isSpace);
      }
    }
  }

  lemma UnitIsOneWord(text: string, isSpace: SpaceTest)
    requires text != ""
    ensures OneWord(text[..UnitLength(text, isSpace)], isSpace)
  {
    hide UnitLength;
    UnitShape(text, isSpace);
  }

  lemma UnitEndsAtWord(text: string, isSpace: SpaceTest)
    requires text != "" && UnitLength(text, isSpace) < |text|
    ensures var n := UnitLength(text, isSpace);
      WordBoundary(text[..n], text[n..][..UnitLength(text[n..], isSpace)], isSpace)
  {
    hide UnitLength;
    UnitShape(text, isSpace);
  }

  lemma FirstUnit(text: string, isSpace: SpaceTest)
    requires text != ""
    ensures Units(text, isSpace) != [] && Units(text, isSpace)[0] == text[..UnitLength(text, isSpace)]
  {
  }

  lemma UnitShape(text: string, isSpace: SpaceTest)
    requires text != ""
    ensures var n := UnitLength(text, isSpace);
      && (forall j :: 0 <= j < n - 1 ==> !(isSpace(text[j]) && !isSpace(text[j + 1])))
      && (n < |text| ==> isSpace(text[n - 1]) && !isSpace(text[n]))
  {
    var word := SpanLength(text, isSpace, false);
    SpanMeans(text, isSpace, false);
    SpanMeans(text[word..], isSpace, true);
    var n := UnitLength(text, isSpace);
    forall j | word <= j < n ensures isSpace(text[j]) { assert text[word..][j - word] == text[j]; }
    if n < |text| { assert text[word..][n - word] == text[n]; }
  }

  lemma {:induction false} SpanMeans(text: string, test: SpaceTest, wanted: bool)
    ensures var n := SpanLength(text, test, wanted);
      && (forall j :: 0 <= j < n ==> test(text[j]) == wanted)
      && (n < |text| ==> test(text[n]) != wanted)
  {
    if text != "" && test(text[0]) == wanted {
      SpanMeans(text[1..], test, wanted);
      forall j | 1 <= j < SpanLength(text, test, wanted) ensures test(text[j]) == wanted { assert text[1..][j - 1] == text[j]; }
    }
  }

  // ----- lemmas on joined parts --------------------------------------------

  lemma {:induction false} JoinedAppend(a: seq<Chunk>, b: seq<Chunk>)
    ensures Joined(a + b) == Joined(a) + Joined(b)
  {
    if a == [] {
      assert a + b == b;
    } else {
      assert (a + b)[1..] == a[1..] + b;
      JoinedAppend(a[1..], b);
    }
  }

  lemma WholeIsCorrect(text: string, tokens: nat, count: Counter, limits: Limits)
    requires 1 <= |text| <= limits.maxChars && CountTokens(text, count) == Ok(tokens)
    requires tokens <= limits.maxTokens || |text| <= 1
    ensures CorrectSplit(text, Ok([Chunk(text, tokens)]), count, limits)
  {
    assert [Chunk(text, tokens)][1..] == [];
  }

  // ----- what good splits look like ----------------------------------------------

  // Said of the tokenizer's answer itself: the text needs no splitting.
  ghost predicate FitsWhole(text: string, count: Counter, limits: Limits) {
    && 1 <= |text| <= limits.maxChars
    && count(text).Some? && 1 <= count(text).value <= limits.maxTokens
  }

  function Texts(chunks: seq<Chunk>): (texts: seq<string>)
    ensures |texts| == |chunks| && forall i :: 0 <= i < |chunks| ==> texts[i] == chunks[i].text
  {
    seq(|chunks|, i requires 0 <= i < |chunks| => chunks[i].text)
  }

  // Only its length stands in the way: whatever is short enough fits.
  ghost predicate ShortPiecesFit(text: string, count: Counter, limits: Limits) {
    forall piece: string :: 1 <= |piece| <= limits.maxChars && IsPieceOf(piece, text) ==> FitsWhole(piece, count, limits)
  }

  ghost predicate UnitsFit(units: seq<string>, count: Counter, limits: Limits) {
    forall i :: 0 <= i < |units| ==> FitsWhole(units[i], count, limits)
  }

  // No more is split than has to be: a fitting text is one part, a text that is only too long
  // is cut into full lengths, one that is too big into whole units where those fit, and a lone
  // unit into halves where those fit.
  ghost predicate SplitsLittle(text: string, result: Result<seq<Chunk>, CountError>, count: Counter, isSpace: SpaceTest, limits: Limits) {
    && (FitsWhole(text, count, limits) ==> result == Ok([Chunk(text, count(text).value)]))
    && (text != "" && ShortPiecesFit(text, count, limits) ==>
          result.Ok? && forall i :: 0 <= i < |result.value| - 1 ==> |result.value[i].text| == limits.maxChars)
    && (2 <= |text| <= limits.maxChars && !FitsWhole(text, count, limits) && |Units(text, isSpace)| > 1
        && UnitsFit(Units(text, isSpace), count, limits) && result.Ok? ==>
          Texts(result.value) == PackedUnits("", Units(text, isSpace), count, limits))
    && (2 <= |text| <= limits.maxChars && !FitsWhole(text, count, limits) && |Units(text, isSpace)| == 1
        && CountTokens(text, count).Ok?
        && FitsWhole(text[..|text| / 2], count, limits) && FitsWhole(text[|text| / 2..], count, limits) ==>
          result.Ok? && Texts(result.value) == [text[..|text| / 2], text[|text| / 2..]])
  }

  lemma LongPiece(text: string, start: nat, end: nat, count: Counter, limits: Limits)
    requires start < end <= |text| && end - start <= limits.maxChars
    ensures ShortPiecesFit(text, count, limits) ==> FitsWhole(text[start..end], count, limits)
  {
    assert text[start..end] == text[start..end] && IsPieceOf(text[start..end], text);
  }

  // Units joined in order, a new part beginning where the next unit no longer fits the open one.
  ghost function PackedUnits(current: string, units: seq<string>, count: Counter, limits: Limits): seq<string>
    decreases units
  {
    if units == [] then [current]
    else if current != "" && !FitsWhole(current + units[0], count, limits) then [current] + PackedUnits(units[0], units[1..], count, limits)
    else PackedUnits(current + units[0], units[1..], count, limits)
  }

  lemma PackedStep(chunks: seq<Chunk>, current: string, units: seq<string>, count: Counter, limits: Limits)
    requires units != []
    ensures var overflow := current != "" && !FitsWhole(current + units[0], count, limits);
      Texts(chunks) + PackedUnits(current, units, count, limits)
      == (if overflow then Texts(chunks) + [current] else Texts(chunks))
         + PackedUnits(if overflow then units[0] else current + units[0], units[1..], count, limits)
  {
    hide FitsWhole;
  }

  lemma TextsAppend(a: seq<Chunk>, b: seq<Chunk>)
    ensures Texts(a + b) == Texts(a) + Texts(b)
  {
  }

  // Such a packing cuts between units only, and never earlier than it has to: no part could
  // have taken the unit that the next part begins with.
  lemma {:induction false} PackedBetweenUnits(open: seq<string>, units: seq<string>, count: Counter, limits: Limits)
      returns (groups: seq<seq<string>>)
    requires forall i :: 0 <= i < |open| ==> open[i] != ""
    requires forall i :: 0 <= i < |units| ==> units[i] != ""
    requires open + units != []
    ensures var packed := PackedUnits(Flatten(open), units, count, limits);
      && Flatten(groups) == open + units && |groups| == |packed|
      && open <= groups[0]
      && (forall i :: 0 <= i < |groups| ==> groups[i] != [] && packed[i] == Flatten(groups[i]))
      && (forall i :: 0 <= i < |groups| - 1 ==> !FitsWhole(packed[i] + groups[i + 1][0], count, limits))
    decreases units
  {
    if units == [] {
      groups := [open];
      assert groups[1..] == [] && open + units == open;
    } else {
      var next, later := units[0], units[1..];
      if Flatten(open) != "" && !FitsWhole(Flatten(open) + next, count, limits) {
        assert Flatten([next]) == next by { assert [next][1..] == []; }
        var rest := PackedBetweenUnits([next], later, count, limits);
        groups := [open] + rest;
        assert groups[1..] == rest && [next] + later == units;
      } else {
        FlattenSnoc(open, next);
        groups := PackedBetweenUnits(open + [next], later, count, limits);
        assert open + [next] + later == open + units;
      }
    }
  }

  // ----- the splitter ---------------------------------------------------------

  method ForceTokenSafeChunks(text: string, count: Counter, isSpace: SpaceTest, limits: Limits)
      returns (result: Result<seq<Chunk>, CountError>)
    requires limits.maxChars >= 1
    ensures CorrectSplit(text, result, count, limits)
    ensures SplitsLittle(text, result, count, isSpace, limits)
    decreases |text|, 1
  {
    hide Safe, Units, UnitLength, IsPieceOf, PackedUnits;
    WholeIsPiece(text);
    if text == "" {
      assert [Chunk("", 0)][1..] == [];
      return Ok([Chunk("", 0)]);
    }
    if |text| > limits.maxChars {
      result := CutByLength(text, count, isSpace, limits);
      return;
    }
    NotTooLong(text, count, limits);
    match CountTokens(text, count) {
      case Err(e) => return Err(e);
      case Ok(tokens) =>
        if tokens <= limits.maxTokens || |text| <= 1 {
          WholeIsCorrect(text, tokens, count, limits);
          return Ok([Chunk(text, tokens)]);
        }
    }
    var units := Units(text, isSpace);
    if |units| > 1 {
      result := PackUnits(text, units, count, isSpace, limits);
      return;
    }
    result := CutInHalf(text, count, isSpace, limits);
  }

  lemma NotTooLong(text: string, count: Counter, limits: Limits)
    requires 1 <= |text| <= limits.maxChars
    ensures ShortPiecesFit(text, count, limits) ==> FitsWhole(text, count, limits)
  {
    WholeIsPiece(text);
  }

  // The stride loop of the splitter.
  method CutByLength(text: string, count: Counter, isSpace: SpaceTest, limits: Limits)
      returns (result: Result<seq<Chunk>, CountError>)
    requires limits.maxChars >= 1 && |text| > limits.maxChars
    ensures CorrectSplit(text, result, count, limits)
    ensures ShortPiecesFit(text, count, limits) ==>
      result.Ok? && forall i :: 0 <= i < |result.value| - 1 ==> |result.value[i].text| == limits.maxChars
    decreases |text|, 0
  {
    hide Safe, Units, IsPieceOf, ShortPiecesFit, FitsWhole, FailsWith;
    ghost var short := ShortPiecesFit(text, count, limits);
    var chunks: seq<Chunk> := [];
    var start := 0;
    while start < |text|
      invariant 0 <= start <= |text|
      invariant Joined(chunks) == text[..start]
      invariant AllSafe(chunks, count, limits)
      invariant short && start < |text| ==> forall i :: 0 <= i < |chunks| ==> |chunks[i].text| == limits.maxChars
      invariant short ==> forall i :: 0 <= i < |chunks| - 1 ==> |chunks[i].text| == limits.maxChars
    {
      var end := if start + limits.maxChars < |text| then start + limits.maxChars else |text|;
      var part := ForceTokenSafeChunks(text[start..end], count, isSpace, limits);
      LongPiece(text, start, end, count, limits);
      if part.Err? {
        assert text == text[..start] + text[start..end] + text[end..];
        FailsInMiddle(part.error, count, text[..start], text[start..end], text[end..]);
        return part;
      }
      JoinedAppend(chunks, part.value);
      assert text[..end] == text[..start] + text[start..end];
      chunks := chunks + part.value;
      start := end;
    }
    assert text[..start] == text;
    return Ok(chunks);
  }

  // One unit that is too big by itself.
  method CutInHalf(text: string, count: Counter, isSpace: SpaceTest, limits: Limits)
      returns (result: Result<seq<Chunk>, CountError>)
    requires limits.maxChars >= 1 && |text| >= 2
    ensures CorrectSplit(text, result, count, limits)
    ensures FitsWhole(text[..|text| / 2], count, limits) && FitsWhole(text[|text| / 2..], count, limits) ==>
      result.Ok? && Texts(result.value) == [text[..|text| / 2], text[|text| / 2..]]
    decreases |text|, 0
  {
    hide Safe, Units, IsPieceOf, FitsWhole, FailsWith;
    var midpoint := if |text| / 2 > 1 then |text| / 2 else 1;
    var left := ForceTokenSafeChunks(text[..midpoint], count, isSpace, limits);
    assert text == text[..midpoint] + text[midpoint..];
    assert "" + text[..midpoint] + text[midpoint..] == text && text[..midpoint] + text[midpoint..] + "" == text;
    if left.Err? {
      FailsInMiddle(left.error, count, "", text[..midpoint], text[midpoint..]);
      return left;
    }
    var right := ForceTokenSafeChunks(text[midpoint..], count, isSpace, limits);
    if right.Err? {
      FailsInMiddle(right.error, count, text[..midpoint], text[midpoint..], "");
      return right;
    }
    JoinedAppend(left.value, right.value);
    return Ok(left.value + right.value);
  }

  ghost predicate Fits(text: string, count: Counter, limits: Limits) {
    CountTokens(text, count).Ok? && CountTokens(text, count).value <= limits.maxTokens
  }

  // Whether adding the next unit to the open part would break a limit.
  function Overflows(current: string, unit: string, count: Counter, limits: Limits): (r: Result<bool, CountError>)
    ensures r == Ok(false) && current != "" ==> Fits(current + unit, count, limits)
    ensures r.Ok? && current != "" ==> (r.value <==> !FitsWhole(current + unit, count, limits))
    ensures r.Err? ==> FailsWith(r.error, count, current + unit)
  {
    if current == "" then Ok(false)
    else if |current + unit| > limits.maxChars then Ok(true)
    else match CountTokens(current + unit, count)
      case Err(e) => WholeIsPiece(current + unit); Err(e)
      case Ok(tokens) => Ok(tokens > limits.maxTokens)
  }

  lemma UnitTaken(done: string, current: string, units: seq<string>, i: nat)
    requires i < |units|
    ensures done + current + Flatten(units[i..]) == done + (current + units[i]) + Flatten(units[i + 1..])
    ensures done + current + Flatten(units[i..]) == (done + current) + units[i] + Flatten(units[i + 1..])
  {
    assert units[i..][1..] == units[i + 1..];
  }

  // The unit loop of the splitter: fill `current` unit by unit, split it off when the next
  // unit would overflow. Only a text that is itself too big gets here, which is what makes
  // every recursive call shorter.
  method PackUnits(text: string, units: seq<string>, count: Counter, isSpace: SpaceTest, limits: Limits)
      returns (result: Result<seq<Chunk>, CountError>)
    requires limits.maxChars >= 1
    requires |units| > 1 && Flatten(units) == text
    requires forall i :: 0 <= i < |units| ==> units[i] != ""
    requires !Fits(text, count, limits)
    ensures text != "" && CorrectSplit(text, result, count, limits)
    ensures UnitsFit(units, count, limits) && result.Ok? ==> Texts(result.value) == PackedUnits("", units, count, limits)
    decreases |text|, 0
  {
    hide Safe, CountTokens, Fits, IsPieceOf, FitsWhole, ShortPiecesFit, PackedUnits, FailsWith, Texts, Joined, Flatten, SplitsLittle;
    NothingJoined(text);
    ghost var fit := UnitsFit(units, count, limits);
    assert units[0..] == units && Texts([]) + PackedUnits("", units, count, limits) == PackedUnits("", units, count, limits);
    var chunks: seq<Chunk> := [];
    var current := "";
    var i := 0;
    while i < |units|
      invariant 0 <= i <= |units|
      invariant Joined(chunks) + current + Flatten(units[i..]) == text
      invariant AllSafe(chunks, count, limits)
      invariant i > 0 ==> current != ""
      invariant chunks != [] ==> Joined(chunks) != ""
      invariant chunks == [] && i > 1 ==> Fits(current, count, limits)
      invariant fit && i > 0 ==> FitsWhole(current, count, limits)
      invariant fit ==> Texts(chunks) + PackedUnits(current, units[i..], count, limits) == PackedUnits("", units, count, limits)
    {
      var unit := units[i];
      assert units[i..][1..] == units[i + 1..] && "" + unit == unit;
      PackedStep(chunks, current, units[i..], count, limits);
      UnitTaken(Joined(chunks), current, units, i);
      var overflow: bool;
      match Overflows(current, unit, count, limits) {
        case Err(e) =>
          FailsInMiddle(e, count, Joined(chunks), current + unit, Flatten(units[i + 1..]));
          return Err(e);
        case Ok(answer) => overflow := answer;
      }
      if overflow {
        var part := ForceTokenSafeChunks(current, count, isSpace, limits);
        FittingIsOnePart(current, part, count, isSpace, limits);
        if part.Err? {
          FailsInMiddle(part.error, count, Joined(chunks), current, Flatten(units[i..]));
          return part;
        }
        JoinedAppend(chunks, part.value);
        TextsAppend(chunks, part.value);
        chunks := chunks + part.value;
        current := unit;
      } else {
        current := current + unit;
      }
      i := i + 1;
    }
    assert units[i..] == [];
    assert chunks == [] ==> "" + current + [] == current;
    var last := ForceTokenSafeChunks(current, count, isSpace, limits);
    FittingIsOnePart(current, last, count, isSpace, limits);
    if last.Err? {
      FailsInMiddle(last.error, count, Joined(chunks), current, []);
      return last;
    }
    JoinedAppend(chunks, last.value);
    TextsAppend(chunks, last.value);
    PackedEnd(current, count, limits);
    return Ok(chunks + last.value);
  }

  lemma FittingIsOnePart(text: string, result: Result<seq<Chunk>, CountError>, count: Counter, isSpace: SpaceTest, limits: Limits)
    requires SplitsLittle(text, result, count, isSpace, limits)
    ensures FitsWhole(text, count, limits) ==> result.Ok? && Texts(result.value) == [text]
  {
    hide PackedUnits;
  }

  lemma NothingJoined(text: string)
    ensures Joined([]) == "" && Flatten<char>([]) == "" && Joined([]) + "" + text == text
  {
  }

  lemma PackedEnd(current: string, count: Counter, limits: Limits)
    ensures PackedUnits(current, [], count, limits) == [current]
  {
  }

  // The entry point, with its fallback for an uncountable but small virtual-target text.
  method SplitEmbeddingInput(text: string, count: Counter, isSpace: SpaceTest, limits: Limits, virtualTarget: bool)
      returns (result: Result<seq<Chunk>, CountError>)
    requires limits.maxChars >= 1
    ensures result.Ok? ==> Joined(result.value) == text && result.value != []
    ensures result.Ok? && text != "" ==>
      || AllSafe(result.value, count, limits)
      || (virtualTarget && FailsWith(Unavailable, count, text) && result.value == [Chunk(text, 0)]
          && |text| <= limits.maxChars && |Utf8(text)| <= limits.maxTokens)
    ensures result.Err? ==> FailsWith(result.error, count, text)
    // the fallback is taken whenever it applies, and not for a text that fits
    ensures result == Err(Unavailable) ==> !virtualTarget || |text| > limits.maxChars || |Utf8(text)| > limits.maxTokens
    ensures text == "" ==> result == Ok([Chunk("", 0)])
    ensures FitsWhole(text, count, limits) ==> result == Ok([Chunk(text, count(text).value)])
    ensures (forall piece: string :: piece != "" && IsPieceOf(piece, text) ==> count(piece).Some? && count(piece).value > 0) ==>
      result.Ok? && (text != "" ==> AllSafe(result.value, count, limits))
  {
    assert Joined([Chunk(text, 0)]) == text by { assert [Chunk(text, 0)][1..] == []; }
    if text == "" { return Ok([Chunk("", 0)]); }
    result := ForceTokenSafeChunks(text, count, isSpace, limits);
    if result == Err(Unavailable) && virtualTarget
       && |text| <= limits.maxChars && |Utf8(text)| <= limits.maxTokens {
      return Ok([Chunk(text, 0)]);
    }
  }
}
