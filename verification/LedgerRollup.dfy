// Rolling usage rows up by any attribution dimension
// (contextual_orchestrator/cost_ledger.py, CostLedger.rollup and CostLedger.total).

module LedgerRollup {
  import opened Prelude
  import opened LedgerStores

  datatype Status = Measured | Estimated | Unavailable

  // _measurement_status_of: anything unrecognised is unavailable.
  function StatusOf(row: Row): Status {
    if row.measurementStatus == "measured" then Measured
    else if row.measurementStatus == "estimated" then Estimated
    else Unavailable
  }

  // The report dimensions with the column each one reads; "provider" is an alias.
  function DimensionValue(dimension: string, row: Row): Option<string> {
    match dimension
    case "account" => Some(row.accountName)
    case "service" => Some(row.serviceName)
    case "upstream_api" => Some(row.upstreamApi)
    case "provider" => Some(row.upstreamApi)
    case "model_name" => Some(row.core.modelName)
    case "team" => Some(row.teamName)
    case "group" => Some(row.groupName)
    case "company" => Some(row.companyName)
    case _ => None
  }

  predicate KnownDimension(dimension: string) {
    dimension in {"account", "service", "upstream_api", "provider", "model_name", "team", "group", "company"}
  }

  function KeyOf(dimension: string, row: Row): string {
    match DimensionValue(dimension, row)
    case Some(value) => OrUnattributed(value)
    case None => UNATTRIBUTED
  }

  // Everything a bucket or a grand total adds up, money in millionths.
  datatype Sums = Sums(
    count: int, prompt: int, completion: int, total: int,
    countMeasured: int, countEstimated: int, countUnavailable: int,
    costMeasured: int, costEstimated: int, costUnavailable: int,
    countKnown: int, countUnknown: int, costKnown: int, costUnknown: int)

  const ZERO := Sums(0, 0, 0, 0, 0, 0, 0, 0, 0, 0, 0, 0, 0, 0)

  function Plus(a: Sums, b: Sums): Sums {
    Sums(a.count + b.count, a.prompt + b.prompt, a.completion + b.completion, a.total + b.total,
         a.countMeasured + b.countMeasured, a.countEstimated + b.countEstimated, a.countUnavailable + b.countUnavailable,
         a.costMeasured + b.costMeasured, a.costEstimated + b.costEstimated, a.costUnavailable + b.costUnavailable,
         a.countKnown + b.countKnown, a.countUnknown + b.countUnknown, a.costKnown + b.costKnown, a.costUnknown + b.costUnknown)
  }

  // A masked count or cost is summed as zero.
  function OrZero(value: Option<int>): int {
    if value.Some? then value.value else 0
  }

  function OfRow(row: Row): Sums {
    var c, cost, status := row.core, OrZero(row.core.costMicros), StatusOf(row);
    Sums(1, OrZero(c.promptTokens), OrZero(c.completionTokens), OrZero(c.totalTokens),
         if status == Measured then 1 else 0, if status == Estimated then 1 else 0, if status == Unavailable then 1 else 0,
         if status == Measured then cost else 0, if status == Estimated then cost else 0, if status == Unavailable then cost else 0,
         if row.priceKnown then 1 else 0, if row.priceKnown then 0 else 1,
         if row.priceKnown then cost else 0, if row.priceKnown then 0 else cost)
  }

  function SumRows(rows: seq<Row>): Sums {
    if rows == [] then ZERO else Plus(OfRow(rows[0]), SumRows(rows[1..]))
  }

  // What a report shows beside the sums: no amount at all where any row is unavailable.
  datatype Report = Report(sums: Sums, measurementStatus: Status, cost: Option<int>)

  function ReportOf(s: Sums): Report {
    var status := if s.countUnavailable > 0 then Unavailable else if s.countEstimated > 0 then Estimated else Measured;
    Report(s, status, if status == Unavailable then None else Some(s.costMeasured + s.costEstimated + s.costUnavailable))
  }

  function HasKey(dimension: string, key: string): Row -> bool {
    (row: Row) => KeyOf(dimension, row) == key
  }

  // The keys rows have in a dimension: one bucket each.
  function Keys(dimension: string, rows: seq<Row>): set<string> {
    set row | row in rows :: KeyOf(dimension, row)
  }

  // ----- the two methods ------------------------------------------------------------------

  datatype Bucket = Bucket(report: Report, currencyCode: string)

  datatype RollupError = UnknownDimension

  method Rollup(rows: seq<Row>, dimension: string) returns (result: Result<map<string, Bucket>, RollupError>)
    ensures result.Err? <==> !KnownDimension(dimension)
    ensures result.Ok? ==> result.value.Keys == Keys(dimension, rows)
    ensures result.Ok? ==> forall key :: key in result.value ==>
      result.value[key].report == ReportOf(SumRows(Own(dimension, key, rows)))
    ensures result.Ok? ==> forall key :: key in result.value ==>
      Own(dimension, key, rows) != [] && result.value[key].currencyCode == Own(dimension, key, rows)[0].core.currencyCode
  {
    hide Plus, OfRow, SumRows, Own, KeyOf, ReportOf, Rolled;
    if !KnownDimension(dimension) { return Err(UnknownDimension); }
    var sums: map<string, Sums>, currencies: map<string, string> := map[], map[];
    NothingRolled(dimension, rows);
    for i := 0 to |rows|
      invariant Rolled(sums, currencies, dimension, rows[..i])
    {
      var row := rows[i];
      var key := KeyOf(dimension, row);
      assert rows[..i + 1] == rows[..i] + [row];
      RolledStep(sums, currencies, dimension, rows[..i], row);
      ghost var before := sums;
      if key !in sums {
        sums, currencies := sums[key := ZERO], currencies[key := row.core.currencyCode];
      }
      assert sums[key := Plus(sums[key], OfRow(row))] == before[key := Plus(sums[key], OfRow(row))];
      sums := sums[key := Plus(sums[key], OfRow(row))];
    }
    assert rows[..|rows|] == rows;
    RolledMeans(sums, currencies, dimension, rows);
    return Ok(map key | key in sums :: Bucket(ReportOf(sums[key]), currencies[key]));
  }

  // The bucket dictionaries after the given rows: one entry a key, the sums of that key's own
  // rows, the currency of the first of them.
  ghost predicate Rolled(sums: map<string, Sums>, currencies: map<string, string>, dimension: string, rows: seq<Row>) {
    && sums.Keys == currencies.Keys == Keys(dimension, rows)
    && (forall key :: key in sums ==> sums[key] == SumRows(Own(dimension, key, rows)))
    && (forall key :: key in sums ==>
          Own(dimension, key, rows) != [] && currencies[key] == Own(dimension, key, rows)[0].core.currencyCode)
  }

  lemma RolledMeans(sums: map<string, Sums>, currencies: map<string, string>, dimension: string, rows: seq<Row>)
    requires Rolled(sums, currencies, dimension, rows)
    ensures sums.Keys == currencies.Keys == Keys(dimension, rows)
    ensures forall key :: key in sums ==> sums[key] == SumRows(Own(dimension, key, rows))
    ensures forall key :: key in sums ==>
      Own(dimension, key, rows) != [] && currencies[key] == Own(dimension, key, rows)[0].core.currencyCode
  {
  }

  lemma NothingRolled(dimension: string, rows: seq<Row>)
    ensures Rolled(map[], map[], dimension, rows[..0])
  {
  }

  lemma RolledStep(sums: map<string, Sums>, currencies: map<string, string>, dimension: string, rows: seq<Row>, row: Row)
    requires Rolled(sums, currencies, dimension, rows)
    ensures var key := KeyOf(dimension, row);
      Rolled(sums[key := Plus(if key in sums then sums[key] else ZERO, OfRow(row))],
             if key in sums then currencies else currencies[key := row.core.currencyCode], dimension, rows + [row])
  {
    hide Plus, OfRow, SumRows, KeyOf, Own;
    var key := KeyOf(dimension, row);
    RolledOwn(sums, dimension, rows, row);
    assert Keys(dimension, rows + [row]) == Keys(dimension, rows) + {key};
  }

  lemma RolledOwn(sums: map<string, Sums>, dimension: string, rows: seq<Row>, row: Row)
    requires sums.Keys == Keys(dimension, rows)
    requires forall key :: key in sums ==> sums[key] == SumRows(Own(dimension, key, rows))
    ensures forall k :: k == KeyOf(dimension, row) ==> Own(dimension, k, rows + [row]) == Own(dimension, k, rows) + [row]
    ensures forall k :: k != KeyOf(dimension, row) ==> Own(dimension, k, rows + [row]) == Own(dimension, k, rows)
    ensures var key := KeyOf(dimension, row);
      SumRows(Own(dimension, key, rows) + [row]) == Plus(if key in sums then sums[key] else ZERO, OfRow(row))
    ensures KeyOf(dimension, row) !in sums ==> Own(dimension, KeyOf(dimension, row), rows) == []
  {
    hide Plus, OfRow, SumRows, KeyOf, Own;
    var key := KeyOf(dimension, row);
    if key !in sums { NoRowsForKey(rows, dimension, key); }
    SumRowsSnoc(Own(dimension, key, rows), row);
    forall k ensures Own(dimension, k, rows + [row])
                  == if k == key then Own(dimension, k, rows) + [row] else Own(dimension, k, rows)
    {
      OwnSnoc(dimension, k, rows, row);
    }
  }

  // The rows of one bucket.
  function Own(dimension: string, key: string, rows: seq<Row>): seq<Row> {
    Filter(HasKey(dimension, key), rows)
  }

  lemma OwnSnoc(dimension: string, key: string, rows: seq<Row>, row: Row)
    ensures Own(dimension, key, rows + [row])
         == if KeyOf(dimension, row) == key then Own(dimension, key, rows) + [row] else Own(dimension, key, rows)
  {
    FilterAppend(HasKey(dimension, key), rows, [row]);
    assert [row][1..] == [];
  }

  method Total(rows: seq<Row>) returns (report: Report)
    ensures report == ReportOf(SumRows(rows))
  {
    hide Plus, OfRow, ReportOf;
    var sums := ZERO;
    for i := 0 to |rows|
      invariant sums == SumRows(rows[..i])
    {
      assert rows[..i + 1] == rows[..i] + [rows[i]];
      SumRowsSnoc(rows[..i], rows[i]);
      sums := Plus(sums, OfRow(rows[i]));
    }
    assert rows[..|rows|] == rows;
    return ReportOf(sums);
  }

  // ----- what keys and sums mean ---------------------------------------------------------------

  // Each dimension reads its own column, blank counting as unattributed.
  lemma DimensionReadsItsColumn(row: Row)
    ensures KeyOf("account", row) == if row.accountName != "" then row.accountName else "unattributed"
    ensures KeyOf("service", row) == if row.serviceName != "" then row.serviceName else "unattributed"
    ensures KeyOf("upstream_api", row) == if row.upstreamApi != "" then row.upstreamApi else "unattributed"
    ensures KeyOf("provider", row) == if row.upstreamApi != "" then row.upstreamApi else "unattributed"
    ensures KeyOf("model_name", row) == if row.core.modelName != "" then row.core.modelName else "unattributed"
    ensures KeyOf("team", row) == if row.teamName != "" then row.teamName else "unattributed"
    ensures KeyOf("group", row) == if row.groupName != "" then row.groupName else "unattributed"
    ensures KeyOf("company", row) == if row.companyName != "" then row.companyName else "unattributed"
  {
  }

  // One row's sums are its own numbers, its cost standing under its status and under whether
  // its price was known.
  lemma SumsOfOneRow(row: Row)
    ensures var s, c := SumRows([row]), row.core;
      && s.count == 1
      && s.prompt == (if c.promptTokens.Some? then c.promptTokens.value else 0)
      && s.completion == (if c.completionTokens.Some? then c.completionTokens.value else 0)
      && s.total == (if c.totalTokens.Some? then c.totalTokens.value else 0)
      && s.countMeasured == (if row.measurementStatus == "measured" then 1 else 0)
      && s.countEstimated == (if row.measurementStatus == "estimated" then 1 else 0)
      && s.countUnavailable == (if row.measurementStatus in {"measured", "estimated"} then 0 else 1)
      && s.countKnown == (if row.priceKnown then 1 else 0)
      && s.countUnknown == (if row.priceKnown then 0 else 1)
    ensures var s, cost := SumRows([row]), if row.core.costMicros.Some? then row.core.costMicros.value else 0;
      && s.costMeasured == (if row.measurementStatus == "measured" then cost else 0)
      && s.costEstimated == (if row.measurementStatus == "estimated" then cost else 0)
      && s.costUnavailable == (if row.measurementStatus in {"measured", "estimated"} then 0 else cost)
      && s.costKnown == (if row.priceKnown then cost else 0)
      && s.costUnknown == (if row.priceKnown then 0 else cost)
  {
    assert [row][1..] == [];
  }

  // And each of the sums of two lists is the two lists' sums added.
  lemma SumsOfLists(a: seq<Row>, b: seq<Row>)
    ensures var s, x, y := SumRows(a + b), SumRows(a), SumRows(b);
      && s.count == x.count + y.count && s.prompt == x.prompt + y.prompt
      && s.completion == x.completion + y.completion && s.total == x.total + y.total
      && s.countMeasured == x.countMeasured + y.countMeasured && s.countEstimated == x.countEstimated + y.countEstimated
      && s.countUnavailable == x.countUnavailable + y.countUnavailable
      && s.countKnown == x.countKnown + y.countKnown && s.countUnknown == x.countUnknown + y.countUnknown
      && s.costMeasured == x.costMeasured + y.costMeasured && s.costEstimated == x.costEstimated + y.costEstimated
      && s.costUnavailable == x.costUnavailable + y.costUnavailable
      && s.costKnown == x.costKnown + y.costKnown && s.costUnknown == x.costUnknown + y.costUnknown
  {
    hide SumRows;
    SumRowsAppend(a, b);
  }

  // A report shows the sum of its rows' costs, unless one of them is unavailable.
  lemma ReportShowsItsRows(rows: seq<Row>)
    ensures var s, report := SumRows(rows), ReportOf(SumRows(rows));
      && report.sums == s
      && report.cost == (if exists row :: row in rows && row.measurementStatus !in {"measured", "estimated"} then None
                         else Some(s.costKnown + s.costUnknown))
      && (report.measurementStatus == Unavailable <==> exists row :: row in rows && row.measurementStatus !in {"measured", "estimated"})
      && (report.measurementStatus == Measured <==> forall row :: row in rows ==> row.measurementStatus == "measured")
  {
    hide SumRows;
    UnavailableAreCounted(rows);
    EstimatedAreCounted(rows);
    BreakdownsAgree(rows);
    assert forall row :: row in rows ==> (StatusOf(row) == Unavailable <==> row.measurementStatus !in {"measured", "estimated"});
  }

  lemma {:induction false} EstimatedAreCounted(rows: seq<Row>)
    ensures SumRows(rows).countEstimated >= 0
    ensures SumRows(rows).countEstimated > 0 <==> exists row :: row in rows && StatusOf(row) == Estimated
  {
    hide StatusOf, OrZero;
    if rows != [] {
      EstimatedAreCounted(rows[1..]);
      assert forall row :: row in rows <==> row == rows[0] || row in rows[1..];
    }
  }

  // ----- lemmas ----------------------------------------------------------------------------

  lemma PlusLaws(a: Sums, b: Sums, c: Sums)
    ensures Plus(ZERO, a) == a && Plus(a, ZERO) == a
    ensures Plus(a, b) == Plus(b, a)
    ensures Plus(Plus(a, b), c) == Plus(a, Plus(b, c))
  {
  }

  lemma {:induction false} SumRowsAppend(a: seq<Row>, b: seq<Row>)
    ensures SumRows(a + b) == Plus(SumRows(a), SumRows(b))
  {
    hide Plus, OfRow;
    if a == [] {
      assert a + b == b;
      PlusLaws(SumRows(b), ZERO, ZERO);
    } else {
      assert (a + b)[1..] == a[1..] + b;
      SumRowsAppend(a[1..], b);
      PlusLaws(OfRow(a[0]), SumRows(a[1..]), SumRows(b));
    }
  }

  lemma SumRowsSnoc(rows: seq<Row>, row: Row)
    ensures SumRows(rows + [row]) == Plus(SumRows(rows), OfRow(row))
  {
    hide Plus, OfRow;
    SumRowsAppend(rows, [row]);
    assert [row][1..] == [];
    PlusLaws(OfRow(row), ZERO, ZERO);
  }

  lemma NoRowsForKey(rows: seq<Row>, dimension: string, key: string)
    requires key !in Keys(dimension, rows)
    ensures Own(dimension, key, rows) == [] && SumRows(Own(dimension, key, rows)) == ZERO
  {
    forall i | 0 <= i < |rows| ensures KeyOf(dimension, rows[i]) != key { assert rows[i] in rows; }
    FilterNone(HasKey(dimension, key), rows);
  }

  // The sums of a list of buckets, taken bucket by bucket.
  function SumBuckets(keys: seq<string>, dimension: string, rows: seq<Row>): Sums {
    if keys == [] then ZERO
    else Plus(SumRows(Own(dimension, keys[0], rows)), SumBuckets(keys[1..], dimension, rows))
  }

  // Buckets partition the rows: over the distinct keys of the rows, every count, token and
  // cost sum of the buckets adds up to the grand total.
  lemma {:induction false} BucketsPartitionTotal(keys: seq<string>, dimension: string, rows: seq<Row>)
    requires Distinct(keys) && forall row :: row in rows ==> KeyOf(dimension, row) in keys
    ensures SumBuckets(keys, dimension, rows) == SumRows(rows)
  {
    if rows == [] {
      SumBucketsOfNothing(keys, dimension);
    } else {
      BucketsPartitionTotal(keys, dimension, rows[1..]);
      OneMoreRow(keys, dimension, rows);
    }
  }

  lemma {:induction false} SumBucketsOfNothing(keys: seq<string>, dimension: string)
    ensures SumBuckets(keys, dimension, []) == ZERO
  {
    if keys != [] { SumBucketsOfNothing(keys[1..], dimension); }
  }

  lemma {:induction false} OneMoreRow(keys: seq<string>, dimension: string, rows: seq<Row>)
    requires Distinct(keys) && rows != []
    ensures SumBuckets(keys, dimension, rows)
         == if KeyOf(dimension, rows[0]) in keys then Plus(OfRow(rows[0]), SumBuckets(keys, dimension, rows[1..]))
            else SumBuckets(keys, dimension, rows[1..])
  {
    hide Plus, OfRow, SumRows, Filter, KeyOf;
    if keys != [] {
      OneMoreRow(keys[1..], dimension, rows);
      assert keys == [keys[0]] + keys[1..];
      FirstOfFilter(HasKey(dimension, keys[0]), rows);
      var first, own, others := OfRow(rows[0]), SumRows(Own(dimension, keys[0], rows[1..])), SumBuckets(keys[1..], dimension, rows[1..]);
      PlusLaws(first, own, others);
      PlusLaws(own, first, others);
      if KeyOf(dimension, rows[0]) == keys[0] {
        forall i | 1 <= i < |keys| ensures keys[i] != keys[0] {}
      }
    }
  }

  // The three status counts and the two price counts each cover every row, and so do the amounts.
  lemma {:induction false} BreakdownsAgree(rows: seq<Row>)
    ensures var s := SumRows(rows);
      && s.count == |rows|
      && s.countMeasured + s.countEstimated + s.countUnavailable == s.count
      && s.countKnown + s.countUnknown == s.count
      && s.costMeasured + s.costEstimated + s.costUnavailable == s.costKnown + s.costUnknown
      && s.countUnavailable >= 0
  {
    if rows != [] { BreakdownsAgree(rows[1..]); }
  }

  lemma {:induction false} UnavailableAreCounted(rows: seq<Row>)
    ensures SumRows(rows).countUnavailable >= 0
    ensures SumRows(rows).countUnavailable > 0 <==> exists row :: row in rows && StatusOf(row) == Unavailable
  {
    hide StatusOf, OrZero;
    if rows != [] {
      UnavailableAreCounted(rows[1..]);
      assert forall row :: row in rows <==> row == rows[0] || row in rows[1..];
    }
  }

  // An amount is withheld exactly when one of the rows is unavailable.
  lemma CostNullIffUnavailable(rows: seq<Row>)
    ensures ReportOf(SumRows(rows)).cost == None <==> exists row :: row in rows && StatusOf(row) == Unavailable
  {
    hide SumRows, StatusOf;
    UnavailableAreCounted(rows);
  }

  ghost predicate Meets(low: Option<int>, high: Option<int>) {
    low.Some? && high.Some? ==> low.value <= high.value
  }

  // An unavailable row with an amount that is not zero.
  predicate HoldsAmount(row: Row) {
    && row.measurementStatus == "unavailable"
    && (OrZero(row.core.promptTokens) != 0 || OrZero(row.core.completionTokens) != 0
        || OrZero(row.core.totalTokens) != 0 || OrZero(row.core.costMicros) != 0)
  }

  // Masking changes what a report adds up exactly for such a row.
  lemma MaskChangesReportIff(row: Row)
    ensures OfRow(MaskRow(row)) != OfRow(row) <==> HoldsAmount(row)
  {
    assert StatusOf(MaskRow(row)) == StatusOf(row) && MaskRow(row).priceKnown == row.priceKnown;
  }

  // Adjacent windows add up, for the grand total and for every bucket.
  lemma {:induction false} AdjacentWindowsAddUp(rows: seq<Row>, a: Option<int>, b: int, c: Option<int>, p: Row -> bool)
    requires Meets(a, Some(b)) && Meets(Some(b), c)
    ensures SumRows(Filter(p, Filter(InWindow(a, c), rows)))
         == Plus(SumRows(Filter(p, Filter(InWindow(a, Some(b)), rows))), SumRows(Filter(p, Filter(InWindow(Some(b), c), rows))))
  {
    hide Plus, OfRow, Filter;
    if rows == [] {
      NothingInWindow(a, c, p);
      NothingInWindow(a, Some(b), p);
      NothingInWindow(Some(b), c, p);
      PlusLaws(ZERO, ZERO, ZERO);
    } else {
      AdjacentWindowsAddUp(rows[1..], a, b, c, p);
      FirstInWindow(rows, a, c, p);
      FirstInWindow(rows, a, Some(b), p);
      FirstInWindow(rows, Some(b), c, p);
      var first := OfRow(rows[0]);
      var left := SumRows(Filter(p, Filter(InWindow(a, Some(b)), rows[1..])));
      var right := SumRows(Filter(p, Filter(InWindow(Some(b), c), rows[1..])));
      PlusLaws(first, left, right);
      PlusLaws(left, first, right);
      PlusLaws(left, right, ZERO);
      PlusLaws(right, left, ZERO);
      PlusLaws(Plus(left, right), ZERO, ZERO);
    }
  }

  lemma NothingInWindow(start: Option<int>, end: Option<int>, p: Row -> bool)
    ensures SumRows(Filter(p, Filter(InWindow(start, end), []))) == ZERO
  {
  }

  lemma FirstInWindow(rows: seq<Row>, start: Option<int>, end: Option<int>, p: Row -> bool)
    requires rows != []
    ensures SumRows(Filter(p, Filter(InWindow(start, end), rows)))
         == Plus(if InWindow(start, end)(rows[0]) && p(rows[0]) then OfRow(rows[0]) else ZERO,
                 SumRows(Filter(p, Filter(InWindow(start, end), rows[1..]))))
  {
    hide Plus, OfRow, SumRows;
    var rest := Filter(InWindow(start, end), rows[1..]);
    PlusLaws(SumRows(Filter(p, rest)), ZERO, ZERO);
    if InWindow(start, end)(rows[0]) {
      assert Filter(InWindow(start, end), rows) == [rows[0]] + rest;
      FirstOfFilter(p, [rows[0]] + rest);
      assert ([rows[0]] + rest)[1..] == rest;
    } else {
      assert Filter(InWindow(start, end), rows) == [] + rest == rest;
    }
  }

  // ----- either store gives the same report ----------------------------------------------------

  // The first of one list has its place in any permutation of it.
  lemma PlaceInPermutation<T>(a: seq<T>, b: seq<T>) returns (k: nat)
    requires multiset(a) == multiset(b) && a != []
    ensures k < |b| && b[k] == a[0]
    ensures multiset(a[1..]) == multiset(b[..k] + b[k + 1..])
  {
    assert a[0] in multiset(b);
    k :| k < |b| && b[k] == a[0];
    assert b == b[..k] + [b[k]] + b[k + 1..];
    assert a == [a[0]] + a[1..];
    assert multiset(a[1..]) == multiset(a) - multiset{a[0]};
    assert multiset(b[..k] + b[k + 1..]) == multiset(b) - multiset{b[k]};
  }

  lemma {:induction false} SumOfPermutation(a: seq<Row>, b: seq<Row>)
    requires multiset(a) == multiset(b)
    ensures SumRows(a) == SumRows(b)
  {
    hide Plus, OfRow;
    if a == [] {
      assert |multiset(b)| == |b| && |multiset(a)| == 0;
    } else {
      var k := PlaceInPermutation(a, b);
      SumOfPermutation(a[1..], b[..k] + b[k + 1..]);
      PullOut(b, k);
    }
  }

  lemma PullOut(s: seq<Row>, k: nat)
    requires k < |s|
    ensures SumRows(s) == Plus(OfRow(s[k]), SumRows(s[..k] + s[k + 1..]))
  {
    hide Plus, OfRow, SumRows;
    assert s == s[..k] + [s[k]] + s[k + 1..];
    SumRowsAppend(s[..k] + [s[k]], s[k + 1..]);
    SumRowsSnoc(s[..k], s[k]);
    SumRowsAppend(s[..k], s[k + 1..]);
    var left, first, right := SumRows(s[..k]), OfRow(s[k]), SumRows(s[k + 1..]);
    PlusLaws(left, first, right);
    PlusLaws(first, left, right);
  }

  // Rows as record_usage builds them: the provider that ran is also the upstream dimension.
  predicate ExecutionIdentityWins(row: Row) {
    OrUnattributed(row.upstreamApi) == OrUnattributed(row.core.providerName)
  }

  lemma NormalisedReportsAlike(row: Row, dimension: string)
    requires ExecutionIdentityWins(row)
    ensures KeyOf(dimension, Normalised(row)) == KeyOf(dimension, row)
    ensures OfRow(Normalised(row)) == OfRow(row)
  {
    var other := Normalised(row);
    assert other.core == row.core && StatusOf(other) == StatusOf(row) && other.priceKnown == row.priceKnown;
    NormalisedKeysAlike(row, dimension);
  }

  lemma NormalisedKeysAlike(row: Row, dimension: string)
    requires ExecutionIdentityWins(row)
    ensures KeyOf(dimension, Normalised(row)) == KeyOf(dimension, row)
  {
    hide OrUnattributed;
    BlankTwice(row.accountName);
    BlankTwice(row.serviceName);
    BlankTwice(row.teamName);
    BlankTwice(row.groupName);
    BlankTwice(row.companyName);
  }

  lemma BlankTwice(value: string)
    ensures OrUnattributed(OrUnattributed(value)) == OrUnattributed(value)
  {
  }

  lemma {:induction false} NormaliseKeepsSums(rows: seq<Row>, dimension: string, key: string)
    requires forall row :: row in rows ==> ExecutionIdentityWins(row)
    ensures SumRows(Filter(HasKey(dimension, key), Normalise(rows))) == SumRows(Filter(HasKey(dimension, key), rows))
    ensures SumRows(Normalise(rows)) == SumRows(rows)
  {
    hide Plus, OfRow, Filter, KeyOf;
    if rows == [] {
      assert Normalise(rows) == [];
    } else {
      NormaliseKeepsSums(rows[1..], dimension, key);
      assert Normalise(rows)[1..] == Normalise(rows[1..]);
      NormalisedReportsAlike(rows[0], dimension);
      FirstOfFilter(HasKey(dimension, key), rows);
      FirstOfFilter(HasKey(dimension, key), Normalise(rows));
    }
  }

  lemma FirstOfFilter(p: Row -> bool, rows: seq<Row>)
    requires rows != []
    ensures SumRows(Filter(p, rows)) == Plus(if p(rows[0]) then OfRow(rows[0]) else ZERO, SumRows(Filter(p, rows[1..])))
  {
    hide Plus, OfRow;
    var rest := Filter(p, rows[1..]);
    PlusLaws(SumRows(rest), ZERO, ZERO);
    if p(rows[0]) {
      assert Filter(p, rows) == [rows[0]] + rest;
      assert ([rows[0]] + rest)[1..] == rest;
    } else {
      assert Filter(p, rows) == [] + rest == rest;
    }
  }

  lemma KeysAlike(found: seq<Row>, listed: seq<Row>, dimension: string)
    requires multiset(found) == multiset(Normalise(listed)) && forall row :: row in listed ==> ExecutionIdentityWins(row)
    ensures Keys(dimension, found) == Keys(dimension, listed)
  {
    hide KeyOf;
    var shown := Normalise(listed);
    forall row ensures row in found <==> row in shown {
      assert row in found <==> row in multiset(found);
      assert row in shown <==> row in multiset(shown);
    }
    forall i | 0 <= i < |listed| ensures KeyOf(dimension, shown[i]) == KeyOf(dimension, listed[i]) {
      NormalisedKeysAlike(listed[i], dimension);
    }
    forall key | key in Keys(dimension, listed) ensures key in Keys(dimension, shown) {
      var i :| 0 <= i < |listed| && KeyOf(dimension, listed[i]) == key;
      assert shown[i] in shown;
    }
    forall key | key in Keys(dimension, shown) ensures key in Keys(dimension, listed) {
      var i :| 0 <= i < |shown| && KeyOf(dimension, shown[i]) == key;
      assert listed[i] in listed;
    }
  }

  // Whatever order the SQL store returns its rows in, its totals and buckets are those of
  // the list store.
  lemma StoresReportAlike(
      t: Tables, rows: seq<Row>, start: Option<int>, end: Option<int>, found: seq<Row>, dimension: string, key: string)
    requires Represents(t, rows) && forall row :: row in rows ==> ExecutionIdentityWins(row)
    requires multiset(found) == multiset(Selected(t, start, end))
    ensures SumRows(found) == SumRows(Filter(InWindow(start, end), rows))
    ensures SumRows(Filter(HasKey(dimension, key), found))
         == SumRows(Filter(HasKey(dimension, key), Filter(InWindow(start, end), rows)))
    ensures Keys(dimension, found) == Keys(dimension, Filter(InWindow(start, end), rows))
  {
    hide Filter, Represents, Selected, Keys;
    var listed := Filter(InWindow(start, end), rows);
    QueryRefinesList(t, rows, start, end);
    FilterMembers(InWindow(start, end), rows);
    SumOfPermutation(found, Normalise(listed));
    FilterOfPermutation(HasKey(dimension, key), found, Normalise(listed));
    SumOfPermutation(Filter(HasKey(dimension, key), found), Filter(HasKey(dimension, key), Normalise(listed)));
    NormaliseKeepsSums(listed, dimension, key);
    KeysAlike(found, listed, dimension);
  }
}
