// Recording usage for a retrieved batch, once however often it is retrieved
// (contextual_orchestrator/cost_router.py, retrieve_batch and _batch_usage_record_id).

module BatchRetrieval {
  import opened Prelude
  import opened LedgerStores
  import LedgerRollup

  // ----- record ids -----------------------------------------------------------------------------

  datatype Kind = Cache | Step | Whole

  function KindName(kind: Kind): string {
    match kind
    case Cache => "cache"
    case Step => "step"
    case Whole => "result"
  }

  const DIGITS := "0123456789"

  function Decimal(n: nat): string {
    if n < 10 then [DIGITS[n]] else Decimal(n / 10) + [DIGITS[n % 10]]
  }

  function Identity(jobId: string, customId: string, kind: Kind, index: nat): string {
    jobId + [NUL] + customId + [NUL] + KindName(kind) + [NUL] + Decimal(index)
  }

  function UsageRecordId(jobId: string, customId: string, kind: Kind, index: nat, digest: Digest): RecordId {
    "usage_batch_" + digest(Utf8(Identity(jobId, customId, kind, index)))
  }

  lemma {:induction false} DecimalHasNoNul(n: nat)
    ensures Decimal(n) != [] && NUL !in Decimal(n)
  {
    if n >= 10 { DecimalHasNoNul(n / 10); }
  }

  lemma {:induction false} DecimalIsInjective(m: nat, n: nat)
    requires Decimal(m) == Decimal(n)
    ensures m == n
  {
    var a, b := Decimal(m), Decimal(n);
    assert a[|a| - 1] == DIGITS[m % 10] && b[|b| - 1] == DIGITS[n % 10];
    assert m % 10 == n % 10;
    DecimalHasNoNul(m / 10);
    DecimalHasNoNul(n / 10);
    if m >= 10 && n >= 10 {
      assert Decimal(m / 10) == a[..|a| - 1] && Decimal(n / 10) == b[..|b| - 1];
      DecimalIsInjective(m / 10, n / 10);
    }
  }

  lemma KindNamesDiffer(k: Kind, l: Kind)
    requires KindName(k) == KindName(l)
    ensures k == l && NUL !in KindName(k)
  {
    assert KindName(k)[0] == KindName(l)[0];
  }

  // Within one job, an id belongs to one custom id, kind and index, whatever the custom id
  // holds; across jobs as well where job ids hold no NUL.
  lemma RecordIdIsInjective(
      job1: string, custom1: string, kind1: Kind, index1: nat,
      job2: string, custom2: string, kind2: Kind, index2: nat, digest: Digest)
    requires Injective(digest)
    requires job1 == job2 || (NUL !in job1 && NUL !in job2)
    requires UsageRecordId(job1, custom1, kind1, index1, digest) == UsageRecordId(job2, custom2, kind2, index2, digest)
    ensures job1 == job2 && custom1 == custom2 && kind1 == kind2 && index1 == index2
  {
    hide Utf8, Decimal, KindName;
    var id1, id2 := Identity(job1, custom1, kind1, index1), Identity(job2, custom2, kind2, index2);
    SuffixOf("usage_batch_", digest(Utf8(id1)), digest(Utf8(id2)));
    Utf8IsInjective(id1, id2);
    DecimalHasNoNul(index1);
    DecimalHasNoNul(index2);
    LastNul(job1 + [NUL] + custom1 + [NUL] + KindName(kind1), Decimal(index1),
            job2 + [NUL] + custom2 + [NUL] + KindName(kind2), Decimal(index2));
    DecimalIsInjective(index1, index2);
    KindNamesDiffer(kind1, kind1);
    KindNamesDiffer(kind2, kind2);
    LastNul(job1 + [NUL] + custom1, KindName(kind1), job2 + [NUL] + custom2, KindName(kind2));
    KindNamesDiffer(kind1, kind2);
    if job1 == job2 {
      SuffixOf(job1 + [NUL], custom1, custom2);
    } else {
      FirstNul(job1, custom1, job2, custom2);
    }
  }

  // A NUL inside a job id is enough to break that: two jobs then share an id.
  lemma JobIdsWithNulCollide(a: string, b: string, c: string, kind: Kind, index: nat, digest: Digest)
    ensures UsageRecordId(a + [NUL] + b, c, kind, index, digest) == UsageRecordId(a, b + [NUL] + c, kind, index, digest)
  {
    assert Identity(a + [NUL] + b, c, kind, index) == Identity(a, b + [NUL] + c, kind, index);
  }

  // ----- what one item records ----------------------------------------------------------------------

  // A trace or race step; `counts` is its provider-reported usage where that is valid.
  datatype UsageStep = UsageStep(counts: Option<(nat, nat)>)

  // `estimate` is what is known of the prompt's size where the item's own usage is not valid.
  datatype Item = Item(
    customId: string, cacheHit: bool, raceUsage: seq<UsageStep>, trace: seq<UsageStep>,
    usage: Option<(nat, nat)>, estimate: Option<nat>, answerTokens: nat)

  datatype Measure =
    | Measured(prompt: nat, completion: nat)
    | Estimated(prompt: nat, completion: nat)
    | Unavailable

  datatype Draft = Draft(id: RecordId, channel: string, measure: Measure)

  function Billable(item: Item): seq<UsageStep> {
    if item.cacheHit then [] else item.raceUsage + item.trace
  }

  predicate StepUsageAvailable(steps: seq<UsageStep>) {
    exists s :: s in steps && s.counts.Some?
  }

  function KindOf(item: Item): Kind {
    if item.cacheHit then Cache else if StepUsageAvailable(Billable(item)) then Step else Whole
  }

  function DraftCount(item: Item): nat {
    if KindOf(item) == Step then |Billable(item)| else 1
  }

  // A step without counts is recorded as unavailable, whatever its prompt and its answer were.
  function MeasureAt(item: Item, i: nat): Measure
    requires i < DraftCount(item)
  {
    match KindOf(item)
    case Cache => Measured(0, 0)
    case Step =>
      (match Billable(item)[i].counts
       case Some((prompt, completion)) => Measured(prompt, completion)
       case None => Unavailable)
    case Whole =>
      match (item.usage, item.estimate)
      case (Some((prompt, completion)), _) => Measured(prompt, completion)
      case (None, Some(prompt)) => Estimated(prompt, item.answerTokens)
      case (None, None) => Unavailable
  }

  function DraftAt(jobId: string, item: Item, i: nat, digest: Digest): Draft
    requires i < DraftCount(item)
  {
    Draft(UsageRecordId(jobId, item.customId, KindOf(item), i, digest),
          if item.cacheHit then "cache" else "batch", MeasureAt(item, i))
  }

  ghost predicate IsDraftsOf(jobId: string, item: Item, digest: Digest, drafts: seq<Draft>) {
    |drafts| == DraftCount(item) && forall i :: 0 <= i < |drafts| ==> drafts[i] == DraftAt(jobId, item, i, digest)
  }

  ghost predicate StepsDrafted(jobId: string, item: Item, digest: Digest, drafts: seq<Draft>) {
    && |drafts| == |item.raceUsage| + |item.trace|
    && forall i :: 0 <= i < |drafts| ==>
         && drafts[i].id == UsageRecordId(jobId, item.customId, Step, i, digest) && drafts[i].channel == "batch"
         && drafts[i].measure == match (item.raceUsage + item.trace)[i].counts
              case Some((prompt, completion)) => Measured(prompt, completion)
              case None => Unavailable
  }

  method DraftItem(jobId: string, item: Item, digest: Digest) returns (drafts: seq<Draft>)
    ensures IsDraftsOf(jobId, item, digest, drafts)
    // a cache hit costs nothing; else every step is drafted as soon as one of them has counts;
    // else the item as a whole, by its own counts, its estimate, or as unavailable
    ensures item.cacheHit ==> drafts == [Draft(UsageRecordId(jobId, item.customId, Cache, 0, digest), "cache", Measured(0, 0))]
    ensures !item.cacheHit && (exists s :: s in item.raceUsage + item.trace && s.counts.Some?) ==>
      StepsDrafted(jobId, item, digest, drafts)
    ensures !item.cacheHit && (forall s :: s in item.raceUsage + item.trace ==> s.counts.None?) ==>
      drafts == [Draft(UsageRecordId(jobId, item.customId, Whole, 0, digest), "batch",
                       if item.usage.Some? then Measured(item.usage.value.0, item.usage.value.1)
                       else if item.estimate.Some? then Estimated(item.estimate.value, item.answerTokens)
                       else Unavailable)]
  {
    hide UsageRecordId;
    drafts := [];
    if item.cacheHit {
      drafts := drafts + [Draft(UsageRecordId(jobId, item.customId, Cache, 0, digest), "cache", Measured(0, 0))];
    }
    var steps := if item.cacheHit then [] else item.raceUsage + item.trace;
    if StepUsageAvailable(steps) {
      for i := 0 to |steps|
        invariant |drafts| == i
        invariant forall k :: 0 <= k < i ==> drafts[k] == DraftAt(jobId, item, k, digest)
      {
        var measure :=
          match steps[i].counts
          case Some((prompt, completion)) => Measured(prompt, completion)
          case None => Unavailable;
        drafts := drafts + [Draft(UsageRecordId(jobId, item.customId, Step, i, digest), "batch", measure)];
      }
    }
    if drafts == [] {
      var measure :=
        if item.usage.Some? then Measured(item.usage.value.0, item.usage.value.1)
        else if item.estimate.Some? then Estimated(item.estimate.value, item.answerTokens)
        else Unavailable;
      drafts := [Draft(UsageRecordId(jobId, item.customId, Whole, 0, digest), "batch", measure)];
    }
  }

  function DraftsOf(jobId: string, item: Item, digest: Digest): (drafts: seq<Draft>)
    ensures IsDraftsOf(jobId, item, digest, drafts)
  {
    seq(DraftCount(item), i requires 0 <= i < DraftCount(item) => DraftAt(jobId, item, i, digest))
  }

  function AllDrafts(jobId: string, items: seq<Item>, digest: Digest): seq<Draft> {
    if items == [] then []
    else AllDrafts(jobId, items[..|items| - 1], digest) + DraftsOf(jobId, items[|items| - 1], digest)
  }

  // ----- what one retrieval does to the ledger --------------------------------------------------------

  // One retrieval: the full row each draft becomes at that time, and which of its appends fail.
  datatype Retrieval = Retrieval(rowOf: Draft -> Row, faulty: nat -> bool)

  ghost predicate RetrievalOk(r: Retrieval) {
    forall d :: (r.rowOf)(d).core.id == d.id
  }

  ghost predicate Faultless(r: Retrieval) {
    forall n :: !(r.faulty)(n)
  }

  // The rows that reach the store.
  function Offered(drafts: seq<Draft>, r: Retrieval): seq<Row> {
    if drafts == [] then []
    else
      var n := |drafts| - 1;
      Offered(drafts[..n], r) + if (r.faulty)(n) then [] else [(r.rowOf)(drafts[n])]
  }

  // A store that refuses an id it holds.
  function Absorb(rows: seq<Row>, offered: seq<Row>): seq<Row> {
    if offered == [] then rows
    else
      var before, last := Absorb(rows, offered[..|offered| - 1]), offered[|offered| - 1];
      if last.core.id in Ids(before) then before else before + [last]
  }

  function MaskRows(rows: seq<Row>): seq<Row> {
    MaskWithin(rows, None, None)
  }

  // A retrieval settles once the store holds every id it recorded; then it reads the records.
  predicate Settles(rows: seq<Row>, drafts: seq<Draft>) {
    DraftIds(drafts) <= Ids(rows)
  }

  function Retrieved(rows: seq<Row>, drafts: seq<Draft>, r: Retrieval): seq<Row> {
    var stored := Absorb(rows, Offered(drafts, r));
    if Settles(stored, drafts) then MaskRows(stored) else stored
  }

  method RetrieveBatch(store: InMemoryLedgerStore, jobId: string, items: seq<Item>, digest: Digest, r: Retrieval)
    requires store.Valid()
    modifies store
    ensures store.Valid()
    ensures store.rows == Retrieved(old(store.rows), AllDrafts(jobId, items, digest), r)
  {
    hide DraftAt, IsDraftsOf, Absorb, Offered, Ids, DraftIds;
    ghost var rows := store.rows;
    var count, recordIds := 0, {};
    NothingOffered(rows, r);
    NoDraftIds();
    for i := 0 to |items|
      invariant store.Valid()
      invariant count == |AllDrafts(jobId, items[..i], digest)| && recordIds == DraftIds(AllDrafts(jobId, items[..i], digest))
      invariant store.rows == Absorb(rows, Offered(AllDrafts(jobId, items[..i], digest), r))
    {
      var drafts := DraftItem(jobId, items[i], digest);
      DraftsAreDetermined(jobId, items[i], digest, drafts);
      assert items[..i + 1][..i] == items[..i];
      RecordDrafts(store, AllDrafts(jobId, items[..i], digest), drafts, count, r, rows);
      DraftIdsAppend(AllDrafts(jobId, items[..i], digest), drafts);
      count, recordIds := count + |drafts|, recordIds + DraftIds(drafts);
    }
    assert items[..|items|] == items;
    if recordIds <= store.ids {
      var settled := store.Records(None, None);
    }
  }

  method RecordDrafts(store: InMemoryLedgerStore, ghost before: seq<Draft>, drafts: seq<Draft>, count: nat, r: Retrieval, ghost rows: seq<Row>)
    requires store.Valid() && count == |before|
    requires store.rows == Absorb(rows, Offered(before, r))
    modifies store
    ensures store.Valid()
    ensures store.rows == Absorb(rows, Offered(before + drafts, r))
  {
    hide Absorb, Offered, Ids;
    assert before + drafts[..0] == before;
    for k := 0 to |drafts|
      invariant store.Valid()
      invariant store.rows == Absorb(rows, Offered(before + drafts[..k], r))
    {
      OfferOne(before + drafts[..k], drafts[k], r, rows);
      assert before + drafts[..k + 1] == before + drafts[..k] + [drafts[k]];
      if !(r.faulty)(count + k) {
        var accepted := store.Append((r.rowOf)(drafts[k]));
      }
    }
    assert drafts[..|drafts|] == drafts;
  }

  lemma NoDraftIds()
    ensures DraftIds([]) == {}
  {
  }

  lemma DraftIdsAppend(a: seq<Draft>, b: seq<Draft>)
    ensures DraftIds(a + b) == DraftIds(a) + DraftIds(b)
  {
    assert forall d :: d in a + b <==> d in a || d in b;
  }

  lemma DraftsAreDetermined(jobId: string, item: Item, digest: Digest, drafts: seq<Draft>)
    requires IsDraftsOf(jobId, item, digest, drafts)
    ensures drafts == DraftsOf(jobId, item, digest)
  {
  }

  lemma OfferOne(drafts: seq<Draft>, d: Draft, r: Retrieval, rows: seq<Row>)
    ensures (r.faulty)(|drafts|) ==>
      Absorb(rows, Offered(drafts + [d], r)) == Absorb(rows, Offered(drafts, r))
    ensures !(r.faulty)(|drafts|) ==>
      Absorb(rows, Offered(drafts + [d], r)) == AppendRow(Absorb(rows, Offered(drafts, r)), (r.rowOf)(d))
  {
    hide Ids;
    assert (drafts + [d])[..|drafts|] == drafts;
    var offered, row := Offered(drafts, r), (r.rowOf)(d);
    assert offered + [] == offered;
    assert (offered + [row])[..|offered|] == offered;
  }

  function AppendRow(rows: seq<Row>, row: Row): seq<Row> {
    if row.core.id in Ids(rows) then rows else rows + [row]
  }

  // ----- retrieving again ---------------------------------------------------------------------------------

  function DraftIds(drafts: seq<Draft>): set<RecordId> {
    set d | d in drafts :: d.id
  }

  // Any number of retrievals of the same drafts, whatever rows they build and whichever fail.
  function After(rows: seq<Row>, drafts: seq<Draft>, runs: seq<Retrieval>): seq<Row> {
    if runs == [] then rows
    else Retrieved(After(rows, drafts, runs[..|runs| - 1]), drafts, runs[|runs| - 1])
  }

  lemma {:induction false} OfferedIds(drafts: seq<Draft>, r: Retrieval)
    requires RetrievalOk(r)
    ensures Ids(Offered(drafts, r)) <= DraftIds(drafts)
    ensures Faultless(r) ==> Ids(Offered(drafts, r)) == DraftIds(drafts)
  {
    if drafts != [] {
      var n := |drafts| - 1;
      OfferedIds(drafts[..n], r);
      assert drafts == drafts[..n] + [drafts[n]];
      assert DraftIds(drafts) == DraftIds(drafts[..n]) + {drafts[n].id};
      IdsSnoc(Offered(drafts[..n], r), (r.rowOf)(drafts[n]));
    }
  }

  lemma {:induction false} AbsorbedIds(rows: seq<Row>, offered: seq<Row>)
    ensures Ids(Absorb(rows, offered)) == Ids(rows) + Ids(offered)
    ensures DistinctIds(rows) ==> DistinctIds(Absorb(rows, offered))
    ensures rows <= Absorb(rows, offered)
  {
    hide Ids, DistinctIds;
    if offered != [] {
      var n := |offered| - 1;
      var before := Absorb(rows, offered[..n]);
      AbsorbedIds(rows, offered[..n]);
      IdsSnoc(offered[..n], offered[n]);
      assert offered == offered[..n] + [offered[n]];
      IdsSnoc(before, offered[n]);
    } else {
      NoIds();
    }
  }

  lemma NoIds()
    ensures Ids([]) == {}
  {
  }

  lemma {:induction false} NothingNew(rows: seq<Row>, offered: seq<Row>)
    requires Ids(offered) <= Ids(rows)
    ensures Absorb(rows, offered) == rows
  {
    if offered != [] {
      var n := |offered| - 1;
      assert offered == offered[..n] + [offered[n]];
      IdsSnoc(offered[..n], offered[n]);
      NothingNew(rows, offered[..n]);
    }
  }

  // Each draft whose append does not fail is in the ledger afterwards, whatever becomes of the others.
  lemma {:induction false} UnfailedDraftIsStored(rows: seq<Row>, drafts: seq<Draft>, r: Retrieval, n: nat)
    requires RetrievalOk(r) && n < |drafts| && !(r.faulty)(n)
    ensures drafts[n].id in Ids(Retrieved(rows, drafts, r))
  {
    hide Absorb, Ids, DraftIds, MaskRow;
    MaskWithinKeepsIds(Absorb(rows, Offered(drafts, r)), None, None);
    AbsorbedIds(rows, Offered(drafts, r));
    UnfailedDraftIsOffered(drafts, r, n);
  }

  lemma {:induction false} UnfailedDraftIsOffered(drafts: seq<Draft>, r: Retrieval, n: nat)
    requires RetrievalOk(r) && n < |drafts| && !(r.faulty)(n)
    ensures drafts[n].id in Ids(Offered(drafts, r))
  {
    hide Ids;
    var last := |drafts| - 1;
    if n < last { UnfailedDraftIsOffered(drafts[..last], r, n); }
    if !(r.faulty)(last) { IdsSnoc(Offered(drafts[..last], r), (r.rowOf)(drafts[last])); }
    assert Offered(drafts[..last], r) + [] == Offered(drafts[..last], r);
  }

  // Every row is still in its place, as it was or masked.
  ghost predicate KeepsRows(before: seq<Row>, after: seq<Row>) {
    && |before| <= |after|
    && forall i :: 0 <= i < |before| ==> after[i] == before[i] || after[i] == MaskRow(before[i])
  }

  // One retrieval keeps every row up to masking, adds only ids of the batch, and no id twice.
  lemma RetrievedFacts(rows: seq<Row>, drafts: seq<Draft>, r: Retrieval)
    requires RetrievalOk(r)
    ensures Ids(rows) <= Ids(Retrieved(rows, drafts, r)) <= Ids(rows) + DraftIds(drafts)
    ensures DistinctIds(rows) ==> DistinctIds(Retrieved(rows, drafts, r))
    ensures KeepsRows(rows, Retrieved(rows, drafts, r))
    ensures |Retrieved(rows, drafts, r)| == |Absorb(rows, Offered(drafts, r))|
    ensures Faultless(r) ==> Settles(Absorb(rows, Offered(drafts, r)), drafts)
  {
    hide Absorb, Offered, Ids, DraftIds, DistinctIds, MaskRow;
    var stored := Absorb(rows, Offered(drafts, r));
    OfferedIds(drafts, r);
    AbsorbedIds(rows, Offered(drafts, r));
    MaskWithinKeepsIds(stored, None, None);
  }

  // Once one retrieval went through whole, no later one changes a row of the ledger.
  lemma {:induction false} LaterRetrievalsChangeNothing(rows: seq<Row>, drafts: seq<Draft>, runs: seq<Retrieval>, k: nat)
    requires k < |runs| && (forall i :: 0 <= i < |runs| ==> RetrievalOk(runs[i])) && Faultless(runs[k])
    ensures After(rows, drafts, runs) == After(rows, drafts, runs[..k + 1])
    ensures Ids(After(rows, drafts, runs)) == Ids(rows) + DraftIds(drafts)
    ensures MaskRows(After(rows, drafts, runs)) == After(rows, drafts, runs)
  {
    hide Absorb, Offered, Ids, DraftIds, MaskRow;
    var n := |runs| - 1;
    var before := After(rows, drafts, runs[..n]);
    MaskWithinKeepsIds(Absorb(before, Offered(drafts, runs[n])), None, None);
    if k == n {
      assert runs[..k + 1] == runs;
      RetrievalsStayWithin(rows, drafts, runs[..n]);
      RetrievedFacts(before, drafts, runs[n]);
      OfferedIds(drafts, runs[n]);
      AbsorbedIds(before, Offered(drafts, runs[n]));
    } else {
      LaterRetrievalsChangeNothing(rows, drafts, runs[..n], k);
      assert runs[..n][..k + 1] == runs[..k + 1];
      OfferedIds(drafts, runs[n]);
      NothingNew(before, Offered(drafts, runs[n]));
    }
  }

  // However many retrievals fail in part, the ledger keeps every row up to masking, gains only
  // ids of this batch, and holds no id twice.
  lemma {:induction false} RetrievalsStayWithin(rows: seq<Row>, drafts: seq<Draft>, runs: seq<Retrieval>)
    requires forall i :: 0 <= i < |runs| ==> RetrievalOk(runs[i])
    ensures Ids(rows) <= Ids(After(rows, drafts, runs)) <= Ids(rows) + DraftIds(drafts)
    ensures KeepsRows(rows, After(rows, drafts, runs))
    ensures DistinctIds(rows) ==> DistinctIds(After(rows, drafts, runs))
  {
    hide Retrieved, Ids, DraftIds, DistinctIds, MaskRow;
    if runs != [] {
      var n := |runs| - 1;
      var before := After(rows, drafts, runs[..n]);
      RetrievalsStayWithin(rows, drafts, runs[..n]);
      RetrievedFacts(before, drafts, runs[n]);
      forall i | 0 <= i < |rows| ensures MaskRow(MaskRow(rows[i])) == MaskRow(rows[i]) { MaskRowIff(rows[i]); }
    }
  }

  // A retrieval leaves the rows it finds untouched exactly when it does not settle or none of
  // them is unavailable and still holds a count or a cost.
  lemma EarlierRowsUntouchedIff(rows: seq<Row>, drafts: seq<Draft>, r: Retrieval)
    requires RetrievalOk(r)
    ensures rows <= Retrieved(rows, drafts, r)
      <==> !Settles(Absorb(rows, Offered(drafts, r)), drafts) || forall i :: 0 <= i < |rows| ==> !Maskable(rows[i])
  {
    hide Absorb, Offered, MaskRow, Maskable, Settles;
    var stored := Absorb(rows, Offered(drafts, r));
    AbsorbedIds(rows, Offered(drafts, r));
    forall i | 0 <= i < |rows| ensures stored[i] == rows[i] && (MaskRow(rows[i]) == rows[i] <==> !Maskable(rows[i])) {
      MaskRowIff(rows[i]);
    }
    if Settles(stored, drafts) {
      var after := MaskRows(stored);
      if forall i :: 0 <= i < |rows| ==> !Maskable(rows[i]) {
        assert rows == after[..|rows|];
      } else {
        var i :| 0 <= i < |rows| && Maskable(rows[i]);
        assert after[i] != rows[i];
      }
    }
  }

  // Even a retrieval of nothing rewrites an unavailable row that holds counts, and the ledger's
  // totals with it.
  lemma EmptyRetrievalMasksEarlierRow(row: Row, r: Retrieval)
    requires RetrievalOk(r) && row.measurementStatus == "unavailable" && row.core.promptTokens == Some(1000)
    ensures Retrieved([row], [], r) == [MaskRow(row)] && MaskRow(row) != row
    ensures LedgerRollup.SumRows(Retrieved([row], [], r)).prompt == LedgerRollup.SumRows([row]).prompt - 1000
  {
    NothingOffered([row], r);
    NoDraftIds();
    assert MaskRows([row]) == [MaskRow(row)];
    assert [row][1..] == [] && [MaskRow(row)][1..] == [];
  }

  // ----- nothing lost the first time -----------------------------------------------------------------------

  ghost predicate DraftsDistinct(drafts: seq<Draft>) {
    forall i, j :: 0 <= i < j < |drafts| ==> drafts[i].id != drafts[j].id
  }

  // Two items may share a custom id only where they record usage of different kinds.
  ghost predicate ItemsDistinct(items: seq<Item>) {
    forall i, j :: 0 <= i < j < |items| ==> items[i].customId != items[j].customId || KindOf(items[i]) != KindOf(items[j])
  }

  lemma DraftCountIsPositive(item: Item)
    ensures DraftCount(item) > 0
  {
  }

  lemma DraftsOfItemDistinct(jobId: string, item: Item, digest: Digest)
    requires Injective(digest)
    ensures DraftsDistinct(DraftsOf(jobId, item, digest))
  {
    hide UsageRecordId, Injective;
    var drafts := DraftsOf(jobId, item, digest);
    forall i, j | 0 <= i < j < |drafts| ensures drafts[i].id != drafts[j].id {
      if drafts[i].id == drafts[j].id {
        RecordIdIsInjective(jobId, item.customId, KindOf(item), i, jobId, item.customId, KindOf(item), j, digest);
      }
    }
  }

  lemma {:induction false} DraftOrigin(jobId: string, items: seq<Item>, digest: Digest, p: nat) returns (i: nat, k: nat)
    requires p < |AllDrafts(jobId, items, digest)|
    ensures i < |items| && k < DraftCount(items[i])
    ensures AllDrafts(jobId, items, digest)[p] == DraftAt(jobId, items[i], k, digest)
  {
    hide DraftAt, DraftCount;
    var n := |items| - 1;
    var before := AllDrafts(jobId, items[..n], digest);
    if p < |before| {
      i, k := DraftOrigin(jobId, items[..n], digest, p);
    } else {
      i, k := n, p - |before|;
    }
  }

  lemma {:induction false} DraftPlace(jobId: string, items: seq<Item>, digest: Digest, i: nat) returns (p: nat)
    requires i < |items|
    ensures p < |AllDrafts(jobId, items, digest)|
    ensures DraftCount(items[i]) > 0 && AllDrafts(jobId, items, digest)[p] == DraftAt(jobId, items[i], 0, digest)
  {
    hide DraftAt, DraftCount;
    var n := |items| - 1;
    var before := AllDrafts(jobId, items[..n], digest);
    DraftCountIsPositive(items[i]);
    if i < n {
      p := DraftPlace(jobId, items[..n], digest, i);
    } else {
      p := |before|;
    }
  }

  lemma DistinctAppend(a: seq<Draft>, b: seq<Draft>)
    ensures DraftsDistinct(a + b) <==> DraftsDistinct(a) && DraftsDistinct(b) && DraftIds(a) !! DraftIds(b)
  {
    var all := a + b;
    if DraftsDistinct(all) {
      assert a == all[..|a|];
      forall i, j | 0 <= i < j < |b| ensures b[i].id != b[j].id { assert all[|a| + i].id != all[|a| + j].id; }
      forall x, y | x in a && y in b ensures x.id != y.id {
        var i, j :| 0 <= i < |a| && a[i] == x && 0 <= j < |b| && b[j] == y;
        assert all[i].id != all[|a| + j].id;
      }
      forall id | id in DraftIds(a) ensures id !in DraftIds(b) {
        var x :| x in a && x.id == id;
      }
    } else {
      var i, j :| 0 <= i < j < |all| && all[i].id == all[j].id;
      if i < |a| && j >= |a| {
        assert a[i] in a && b[j - |a|] in b;
        assert a[i].id in DraftIds(a) && a[i].id in DraftIds(b);
      }
    }
  }

  lemma {:induction false} DraftsDistinctIff(jobId: string, items: seq<Item>, digest: Digest)
    requires Injective(digest)
    ensures DraftsDistinct(AllDrafts(jobId, items, digest)) <==> ItemsDistinct(items)
  {
    hide UsageRecordId, KindOf, DraftCount, Injective, DraftsDistinct;
    if items == [] {
      NoDraftsDistinct();
    } else {
      var n := |items| - 1;
      var front, last := items[..n], items[n];
      var before, own := AllDrafts(jobId, front, digest), DraftsOf(jobId, last, digest);
      DraftsDistinctIff(jobId, front, digest);
      DraftsOfItemDistinct(jobId, last, digest);
      DistinctAppend(before, own);
      SharedIdIff(jobId, front, last, digest);
      LastItemDistinct(items);
    }
  }

  lemma NoDraftsDistinct()
    ensures DraftsDistinct([])
  {
  }

  lemma LastItemDistinct(items: seq<Item>)
    requires items != []
    ensures var n := |items| - 1;
      ItemsDistinct(items) <==> ItemsDistinct(items[..n]) && !SharesRecord(items[..n], items[n])
  {
    hide KindOf;
    var n := |items| - 1;
    assert forall i :: 0 <= i < n ==> items[..n][i] == items[i];
  }

  ghost predicate SharesRecord(items: seq<Item>, last: Item) {
    exists i :: 0 <= i < |items| && items[i].customId == last.customId && KindOf(items[i]) == KindOf(last)
  }

  lemma SharedIdIff(jobId: string, items: seq<Item>, last: Item, digest: Digest)
    requires Injective(digest)
    ensures DraftIds(AllDrafts(jobId, items, digest)) !! DraftIds(DraftsOf(jobId, last, digest)) <==> !SharesRecord(items, last)
  {
    hide UsageRecordId, KindOf, DraftCount, Injective, AllDrafts;
    var before, own := AllDrafts(jobId, items, digest), DraftsOf(jobId, last, digest);
    if SharesRecord(items, last) {
      var i :| 0 <= i < |items| && items[i].customId == last.customId && KindOf(items[i]) == KindOf(last);
      var p := DraftPlace(jobId, items, digest, i);
      DraftCountIsPositive(last);
      assert before[p] in before && own[0] in own && before[p].id == own[0].id;
      assert before[p].id in DraftIds(before) && own[0].id in DraftIds(own);
    } else {
      forall p, k | 0 <= p < |before| && 0 <= k < |own| ensures before[p].id != own[k].id {
        var i, j := DraftOrigin(jobId, items, digest, p);
        if before[p].id == own[k].id {
          RecordIdIsInjective(jobId, items[i].customId, KindOf(items[i]), j, jobId, last.customId, KindOf(last), k, digest);
        }
      }
    }
  }

  // A first faultless retrieval stores a row for every draft, in order, exactly when no two
  // items record the same kind of usage under one custom id; unavailable rows end up masked.
  lemma FirstRetrievalStoresEverythingIff(
      rows: seq<Row>, jobId: string, items: seq<Item>, digest: Digest, r: Retrieval)
    requires Injective(digest) && RetrievalOk(r) && Faultless(r)
    requires Ids(rows) !! DraftIds(AllDrafts(jobId, items, digest))
    ensures var drafts := AllDrafts(jobId, items, digest);
      && (|Retrieved(rows, drafts, r)| == |rows| + |drafts| <==> ItemsDistinct(items))
      && (ItemsDistinct(items) ==> Retrieved(rows, drafts, r) == MaskRows(rows + Map(r.rowOf, drafts)))
  {
    hide AllDrafts, ItemsDistinct, Injective, Settles, Absorb, Offered, Ids, DraftIds, MaskRows;
    var drafts := AllDrafts(jobId, items, digest);
    DraftsDistinctIff(jobId, items, digest);
    StoresEachIff(rows, drafts, r);
    RetrievedFacts(rows, drafts, r);
  }

  lemma {:induction false} StoresEachIff(rows: seq<Row>, drafts: seq<Draft>, r: Retrieval)
    requires RetrievalOk(r) && Faultless(r) && Ids(rows) !! DraftIds(drafts)
    ensures |Absorb(rows, Offered(drafts, r))| <= |rows| + |drafts|
    ensures |Absorb(rows, Offered(drafts, r))| == |rows| + |drafts| <==> DraftsDistinct(drafts)
    ensures DraftsDistinct(drafts) ==> Absorb(rows, Offered(drafts, r)) == rows + Map(r.rowOf, drafts)
  {
    hide Absorb, Offered, Ids, DraftsDistinct, DistinctIds, DistinctBy;
    if drafts == [] {
      NothingOffered(rows, r);
      NoDraftsDistinct();
    } else {
      var n := |drafts| - 1;
      var front, last := drafts[..n], drafts[n];
      assert drafts == front + [last];
      StoresEachIff(rows, front, r);
      OfferOne(front, last, r, rows);
      OfferedIds(front, r);
      AbsorbedIds(rows, Offered(front, r));
      assert last in drafts && last.id in DraftIds(drafts);
      assert DraftIds([last]) == {last.id};
      OneDraftDistinct(last);
      DistinctAppend(front, [last]);
      assert Map(r.rowOf, drafts) == Map(r.rowOf, front) + [(r.rowOf)(last)];
    }
  }

  lemma OneDraftDistinct(d: Draft)
    ensures DraftsDistinct([d])
  {
  }

  lemma NothingOffered(rows: seq<Row>, r: Retrieval)
    ensures Absorb(rows, Offered([], r)) == rows
  {
  }
}
