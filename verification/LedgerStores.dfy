// The two ledger stores: a plain list and a normalised SQL schema
// (contextual_orchestrator/cost_ledger.py, InMemoryLedgerStore and SqlLedgerStore).

module LedgerStores {
  import opened Prelude

  type RecordId = string

  const UNATTRIBUTED := "unattributed"

  // The columns of the usage table. Counts and cost are None only in a row of the list store
  // that records() has masked.
  datatype Core = Core(
    id: RecordId, createdAt: int, workflowRunId: Option<string>, requestChannel: string, routeMode: Option<string>,
    providerName: string, modelName: string, promptTokens: Option<int>, completionTokens: Option<int>, totalTokens: Option<int>,
    costMicros: Option<int>, currencyCode: string)

  // A flattened record, as the list store keeps it and both stores return it.
  datatype Row = Row(
    core: Core, upstreamApi: string,
    accountName: string, serviceName: string, teamName: string, groupName: string, companyName: string,
    measurementStatus: string, priceKnown: bool)

  datatype Dimension = Account | Service | Team | Group | Company

  const DIMENSIONS: seq<Dimension> := [Account, Service, Team, Group, Company]

  // Each map is a table under its primary key; `links` is the per-record attribution table
  // and `values` the shared value table it refers to.
  datatype Tables = Tables(
    usage: map<RecordId, Core>,
    measurements: map<RecordId, string>,
    priceKnowledge: map<RecordId, bool>,
    values: set<(Dimension, string)>,
    links: map<(RecordId, Dimension), string>)

  const EMPTY := Tables(map[], map[], map[], {}, map[])

  datatype Statement =
    | InsertUsage(core: Core)
    | InsertMeasurement(id: RecordId, status: string)
    | InsertPriceKnowledge(id: RecordId, known: bool)
    | InsertValue(dimension: Dimension, value: string)
    | InsertLink(id: RecordId, dimension: Dimension, value: string)

  function PutIfAbsent<K, V>(m: map<K, V>, k: K, v: V): map<K, V> {
    if k in m then m else m[k := v]
  }

  // INSERT ... ON CONFLICT DO NOTHING
  function Execute(t: Tables, s: Statement): Tables {
    match s
    case InsertUsage(core) => t.(usage := PutIfAbsent(t.usage, core.id, core))
    case InsertMeasurement(id, status) => t.(measurements := PutIfAbsent(t.measurements, id, status))
    case InsertPriceKnowledge(id, known) => t.(priceKnowledge := PutIfAbsent(t.priceKnowledge, id, known))
    case InsertValue(dimension, value) => t.(values := t.values + {(dimension, value)})
    case InsertLink(id, dimension, value) => t.(links := PutIfAbsent(t.links, (id, dimension), value))
  }

  function Column(row: Row, d: Dimension): string {
    match d
    case Account => row.accountName
    case Service => row.serviceName
    case Team => row.teamName
    case Group => row.groupName
    case Company => row.companyName
  }

  function OrUnattributed(value: string): string {
    if value == "" then UNATTRIBUTED else value
  }

  // ----- what the tables must look like ----------------------------------------------

  ghost predicate TablesOk(t: Tables) {
    && t.measurements.Keys == t.usage.Keys
    && t.priceKnowledge.Keys == t.usage.Keys
    && (forall id, d :: (id, d) in t.links <==> id in t.usage)
    && (forall id, d :: (id, d) in t.links ==> (d, t.links[(id, d)]) in t.values)
    && (forall id :: id in t.usage ==> t.usage[id].id == id)
  }

  // One usage row owns one measurement, one price-knowledge and five attribution rows.
  lemma OneOfEachSatellite(t: Tables, id: RecordId)
    requires TablesOk(t) && id in t.usage
    ensures |set k | k in t.measurements && k == id| == 1
    ensures |set k | k in t.priceKnowledge && k == id| == 1
    ensures |set k | k in t.links && k.0 == id| == 5
  {
    assert (set k | k in t.measurements && k == id) == {id};
    assert (set k | k in t.priceKnowledge && k == id) == {id};
    var links := set k | k in t.links && k.0 == id;
    assert links == {(id, Account), (id, Service), (id, Team), (id, Group), (id, Company)} by {
      forall k | k in links ensures k in {(id, Account), (id, Service), (id, Team), (id, Group), (id, Company)} {
        assert k.1 == Account || k.1 == Service || k.1 == Team || k.1 == Group || k.1 == Company;
      }
    }
  }

  // The tables after a whole record went in.
  function Stored(t: Tables, row: Row): Tables {
    var id := row.core.id;
    Tables(
      t.usage[id := row.core],
      t.measurements[id := row.measurementStatus],
      t.priceKnowledge[id := row.priceKnown],
      t.values + LinkValues(row, |DIMENSIONS|),
      AddLinks(t.links, row, |DIMENSIONS|))
  }

  function LinkValues(row: Row, n: nat): set<(Dimension, string)>
    requires n <= |DIMENSIONS|
  {
    if n == 0 then {}
    else LinkValues(row, n - 1) + {(DIMENSIONS[n - 1], OrUnattributed(Column(row, DIMENSIONS[n - 1])))}
  }

  function AddLinks(links: map<(RecordId, Dimension), string>, row: Row, n: nat): map<(RecordId, Dimension), string>
    requires n <= |DIMENSIONS|
  {
    if n == 0 then links
    else AddLinks(links, row, n - 1)[(row.core.id, DIMENSIONS[n - 1]) := OrUnattributed(Column(row, DIMENSIONS[n - 1]))]
  }

  lemma AddLinksFacts(links: map<(RecordId, Dimension), string>, row: Row, n: nat)
    requires n <= |DIMENSIONS|
    ensures forall id, d :: (id, d) in AddLinks(links, row, n) <==>
      (id, d) in links || (id == row.core.id && d in DIMENSIONS[..n])
    ensures forall id, d :: (id, d) in AddLinks(links, row, n) ==>
      AddLinks(links, row, n)[(id, d)] ==
        if id == row.core.id && d in DIMENSIONS[..n] then OrUnattributed(Column(row, d)) else links[(id, d)]
    ensures forall d :: d in DIMENSIONS[..n] ==> (d, OrUnattributed(Column(row, d))) in LinkValues(row, n)
  {
    if n > 0 {
      AddLinksFacts(links, row, n - 1);
      assert DIMENSIONS[..n] == DIMENSIONS[..n - 1] + [DIMENSIONS[n - 1]];
    }
  }

  lemma EveryDimension(d: Dimension)
    ensures d in DIMENSIONS[..|DIMENSIONS|]
  {
    assert DIMENSIONS[..|DIMENSIONS|] == DIMENSIONS;
    match d
    case Account => assert DIMENSIONS[0] == d;
    case Service => assert DIMENSIONS[1] == d;
    case Team => assert DIMENSIONS[2] == d;
    case Group => assert DIMENSIONS[3] == d;
    case Company => assert DIMENSIONS[4] == d;
  }

  lemma StoredKeepsTablesOk(t: Tables, row: Row)
    requires TablesOk(t) && row.core.id !in t.usage
    ensures TablesOk(Stored(t, row))
    ensures forall d :: Linked(Stored(t, row), row.core.id, d) == OrUnattributed(Column(row, d))
    ensures forall id, d :: id != row.core.id ==> Linked(Stored(t, row), id, d) == Linked(t, id, d)
  {
    AddLinksFacts(t.links, row, |DIMENSIONS|);
    forall d: Dimension ensures d in DIMENSIONS[..|DIMENSIONS|] { EveryDimension(d); }
  }

  // ----- the SQL store ------------------------------------------------------------------

  datatype Outcome = Accepted | Duplicate | Raised

  ghost predicate AllWent(fails: nat -> bool, from: nat, to: nat) {
    forall k :: from <= k < to ==> !fails(k)
  }

  lemma AllWentOn(fails: nat -> bool, from: nat, to: nat, next: nat)
    requires from <= to <= next
    ensures AllWent(fails, from, next) <==> AllWent(fails, from, to) && AllWent(fails, to, next)
    ensures AllWent(fails, to, to) && (AllWent(fails, to, to + 1) <==> !fails(to))
  {
  }

  // A connection: durable tables, and the tables a transaction is working on. `fails` says which
  // of its statements, BEGIN, SAVEPOINT, RELEASE and COMMIT among them, fail; a failed one
  // changes nothing.
  class SqlLedgerStore {
    const fails: nat -> bool
    var committed: Tables
    var transaction: Option<Tables>
    var statements: nat      // issued so far

    function Visible(): Tables
      reads this`transaction, this`committed
    {
      if transaction.Some? then transaction.value else committed
    }

    constructor (fails: nat -> bool)
      ensures Visible() == EMPTY && transaction == None && this.fails == fails
    {
      this.fails, committed, transaction, statements := fails, EMPTY, None, 0;
    }

    method Issue() returns (ok: bool)
      modifies this`statements
      ensures ok == !fails(old(statements)) && statements == old(statements) + 1
    {
      ok := !fails(statements);
      statements := statements + 1;
    }

    method Run(s: Statement) returns (ok: bool)
      requires transaction.Some?
      modifies this`transaction, this`statements
      ensures ok == !fails(old(statements)) && statements == old(statements) + 1
      ensures transaction == if ok then Some(Execute(old(Visible()), s)) else old(transaction)
    {
      ok := Issue();
      if ok { transaction := Some(Execute(transaction.value, s)); }
    }

    method InsertDimension(id: RecordId, dimension: Dimension, value: string) returns (ok: bool)
      requires transaction.Some? && (id, dimension) !in Visible().links
      modifies this`transaction, this`statements
      ensures transaction.Some? && statements >= old(statements)
      ensures ok <==> AllWent(fails, old(statements), statements)
      ensures ok ==> Visible() == old(Visible()).(
        values := old(Visible()).values + {(dimension, value)}, links := old(Visible()).links[(id, dimension) := value])
    {
      ok := Run(InsertValue(dimension, value));
      if ok { ok := Run(InsertLink(id, dimension, value)); }
    }

    // Five links, each to its dimension's value.
    method InsertNormalizedAttribution(row: Row) returns (ok: bool)
      requires transaction.Some? && forall d :: (row.core.id, d) !in Visible().links
      modifies this`transaction, this`statements
      ensures transaction.Some? && statements >= old(statements)
      ensures ok <==> AllWent(fails, old(statements), statements)
      ensures ok ==> Visible() == old(Visible()).(
        values := old(Visible()).values + LinkValues(row, |DIMENSIONS|),
        links := AddLinks(old(Visible()).links, row, |DIMENSIONS|))
    {
      hide Column, OrUnattributed, AllWent;
      ghost var before, first := Visible(), statements;
      assert before.values + {} == before.values;
      AllWentOn(fails, first, first, first);
      for n := 0 to |DIMENSIONS|
        invariant transaction.Some? && statements >= first && AllWent(fails, first, statements)
        invariant Visible() == before.(
          values := before.values + LinkValues(row, n), links := AddLinks(before.links, row, n))
      {
        ghost var already := statements;
        AddLinksFacts(before.links, row, n);
        assert DIMENSIONS[n] !in DIMENSIONS[..n];
        ok := InsertDimension(row.core.id, DIMENSIONS[n], OrUnattributed(Column(row, DIMENSIONS[n])));
        AllWentOn(fails, first, already, statements);
        if !ok { return; }
        assert before.values + LinkValues(row, n + 1)
            == (before.values + LinkValues(row, n)) + {(DIMENSIONS[n], OrUnattributed(Column(row, DIMENSIONS[n])))};
      }
      return true;
    }

    // The statements of one append inside its transaction or savepoint.
    method InsertRecord(row: Row) returns (ok: bool, accepted: bool)
      requires transaction.Some? && TablesOk(Visible())
      modifies this`transaction, this`statements
      ensures transaction.Some? && statements >= old(statements)
      ensures ok <==> AllWent(fails, old(statements), statements)
      ensures accepted <==> row.core.id !in old(Visible()).usage
      ensures ok ==> Visible() == if accepted then Stored(old(Visible()), row) else old(Visible())
    {
      hide AllWent;
      ghost var first := statements;
      AllWentOn(fails, first, first + 1, first + 2);
      AllWentOn(fails, first, first + 2, first + 3);
      AllWentOn(fails, first + 1, first + 1, first + 1);
      AllWentOn(fails, first + 2, first + 2, first + 2);
      AllWentOn(fails, first, first, first);
      accepted := row.core.id !in Visible().usage;
      ok := Run(InsertUsage(row.core));
      if !ok || !accepted { return; }
      ok := Run(InsertMeasurement(row.core.id, row.measurementStatus));
      if !ok { return; }
      ok := Run(InsertPriceKnowledge(row.core.id, row.priceKnown));
      if !ok { return; }
      ok := InsertNormalizedAttribution(row);
      AllWentOn(fails, first, first + 3, statements);
    }

    // All or nothing, alone or inside the caller's transaction; a duplicate changes nothing.
    // It raises exactly when one of its own statements failed.
    method Append(row: Row) returns (outcome: Outcome)
      requires TablesOk(Visible())
      modifies this
      ensures statements > old(statements)
      ensures outcome == Raised <==> !AllWent(fails, old(statements), statements)
      ensures old(transaction).Some? ==> transaction.Some? && committed == old(committed)
      ensures old(transaction) == None ==> transaction == None
      ensures outcome == Accepted ==> row.core.id !in old(Visible()).usage && Visible() == Stored(old(Visible()), row)
      ensures outcome == Duplicate ==> row.core.id in old(Visible()).usage
      ensures outcome != Accepted ==> Visible() == old(Visible())
    {
      hide AllWent, TablesOk, Stored;
      ghost var first := statements;
      AllWentOn(fails, first, first, first + 1);
      var outer := transaction.Some?;
      var ok := Issue();       // SAVEPOINT or BEGIN
      if !ok { return Raised; }
      var savepoint := Visible();
      transaction := Some(savepoint);
      var accepted: bool;
      ok, accepted := InsertRecord(row);
      AllWentOn(fails, first, first + 1, statements);
      if ok {
        AllWentOn(fails, first, statements, statements + 1);
        AllWentOn(fails, statements, statements, statements);
        ok := Issue();         // RELEASE SAVEPOINT or COMMIT
      }
      if !ok {
        transaction := if outer then Some(savepoint) else None;
        return Raised;
      }
      if !outer {
        committed, transaction := transaction.value, None;
      }
      return if accepted then Accepted else Duplicate;
    }
  }

  // ----- the list store -------------------------------------------------------------------

  predicate WithinWindow(createdAt: int, start: Option<int>, end: Option<int>) {
    && (start.Some? ==> createdAt >= start.value)
    && (end.Some? ==> createdAt < end.value)
  }

  function InWindow(start: Option<int>, end: Option<int>): Row -> bool {
    (row: Row) => WithinWindow(row.core.createdAt, start, end)
  }

  function Ids(rows: seq<Row>): set<RecordId> {
    set row | row in rows :: row.core.id
  }

  class InMemoryLedgerStore {
    var rows: seq<Row>
    var ids: set<RecordId>

    ghost predicate Valid()
      reads this
    {
      ids == Ids(rows)
    }

    constructor ()
      ensures Valid() && rows == []
    {
      rows, ids := [], {};
    }

    method Append(row: Row) returns (accepted: bool)
      requires Valid()
      modifies this
      ensures Valid()
      ensures accepted <==> row.core.id !in Ids(old(rows))
      ensures rows == if accepted then old(rows) + [row] else old(rows)
    {
      if row.core.id in ids { return false; }
      rows, ids := rows + [row], ids + {row.core.id};
      return true;
    }

    // CostLedger.records over this store: query returns the live rows, so masking what is
    // returned rewrites what is stored.
    method Records(start: Option<int>, end: Option<int>) returns (found: seq<Row>)
      requires Valid()
      modifies this
      ensures Valid() && ids == old(ids)
      ensures rows == MaskWithin(old(rows), start, end)
      ensures found == Filter(InWindow(start, end), rows)
    {
      ghost var before := rows;
      for i := 0 to |rows|
        invariant |rows| == |before| && ids == old(ids)
        invariant forall k :: 0 <= k < |rows| ==> rows[k] == if k < i then MaskWithin(before, start, end)[k] else before[k]
      {
        if WithinWindow(rows[i].core.createdAt, start, end) && rows[i].measurementStatus == "unavailable" {
          var core := rows[i].core.(promptTokens := None, completionTokens := None, totalTokens := None, costMicros := None);
          rows := rows[i := rows[i].(core := core)];
        }
      }
      assert rows == MaskWithin(before, start, end);
      MaskWithinKeepsIds(before, start, end);
      found := Query(start, end);
    }

    method Query(start: Option<int>, end: Option<int>) returns (found: seq<Row>)
      ensures found == Filter(InWindow(start, end), rows)
      // the window is half-open, and open where no bound is given
      ensures forall row :: row in found ==> row in rows
      ensures forall row :: row in rows ==>
        (row in found <==> (start.Some? ==> start.value <= row.core.createdAt) && (end.Some? ==> row.core.createdAt < end.value))
    {
      hide Filter;
      found := [];
      FilterAll(InWindow(start, end), []);
      for i := 0 to |rows|
        invariant found == Filter(InWindow(start, end), rows[..i])
      {
        assert rows[..i + 1] == rows[..i] + [rows[i]];
        FilterSnoc(InWindow(start, end), rows[..i], rows[i]);
        if WithinWindow(rows[i].core.createdAt, start, end) { found := found + [rows[i]]; }
      }
      assert rows[..|rows|] == rows;
      FilterMembers(InWindow(start, end), rows);
    }
  }

  // ----- masking ------------------------------------------------------------------------------

  // What records() does to one row it returns.
  function MaskRow(row: Row): Row {
    if row.measurementStatus == "unavailable"
    then row.(core := row.core.(promptTokens := None, completionTokens := None, totalTokens := None, costMicros := None))
    else row
  }

  function MaskWithin(rows: seq<Row>, start: Option<int>, end: Option<int>): (r: seq<Row>)
    ensures |r| == |rows|
    ensures forall i :: 0 <= i < |rows| ==> r[i] == if InWindow(start, end)(rows[i]) then MaskRow(rows[i]) else rows[i]
  {
    seq(|rows|, i requires 0 <= i < |rows| => if InWindow(start, end)(rows[i]) then MaskRow(rows[i]) else rows[i])
  }

  // An unavailable row that still holds a count or a cost.
  predicate Maskable(row: Row) {
    && row.measurementStatus == "unavailable"
    && (row.core.promptTokens.Some? || row.core.completionTokens.Some? || row.core.totalTokens.Some? || row.core.costMicros.Some?)
  }

  // Masking clears the three counts and the cost of an unavailable row, and nothing else.
  lemma MaskRowIff(row: Row)
    ensures MaskRow(row) == row <==> !Maskable(row)
    ensures !Maskable(MaskRow(row))
    ensures MaskRow(row).(core := MaskRow(row).core.(
      promptTokens := row.core.promptTokens, completionTokens := row.core.completionTokens,
      totalTokens := row.core.totalTokens, costMicros := row.core.costMicros)) == row
    ensures MaskRow(row).core.id == row.core.id && MaskRow(MaskRow(row)) == MaskRow(row)
  {
  }

  lemma MaskWithinKeepsIds(rows: seq<Row>, start: Option<int>, end: Option<int>)
    ensures Ids(MaskWithin(rows, start, end)) == Ids(rows)
    ensures DistinctIds(rows) ==> DistinctIds(MaskWithin(rows, start, end))
    ensures MaskWithin(MaskWithin(rows, start, end), start, end) == MaskWithin(rows, start, end)
  {
    var masked := MaskWithin(rows, start, end);
    forall i | 0 <= i < |rows| ensures masked[i].core.id == rows[i].core.id && rows[i].core.id in Ids(masked) && masked[i].core.id in Ids(rows) {
      assert masked[i] in masked && rows[i] in rows;
    }
    assert MaskWithin(masked, start, end) == masked;
  }

  // Reading the records of a window rewrites the list exactly when an unavailable row of the
  // window still holds a count or a cost.
  lemma RecordsRewritesIff(rows: seq<Row>, start: Option<int>, end: Option<int>)
    ensures MaskWithin(rows, start, end) == rows
      <==> forall i :: 0 <= i < |rows| && InWindow(start, end)(rows[i]) ==> !Maskable(rows[i])
  {
    var masked := MaskWithin(rows, start, end);
    forall i | 0 <= i < |rows| ensures masked[i] == rows[i] <==> !(InWindow(start, end)(rows[i]) && Maskable(rows[i])) {
      MaskRowIff(rows[i]);
    }
    if forall i :: 0 <= i < |rows| && InWindow(start, end)(rows[i]) ==> !Maskable(rows[i]) {
      assert masked == rows;
    }
  }

  // ----- refinement -------------------------------------------------------------------------

  // One row of the joined, grouped select: missing satellites read as unknown.
  function SelectedRow(t: Tables, id: RecordId): Row
    requires id in t.usage
  {
    var core := t.usage[id];
    Row(core, core.providerName,
        Linked(t, id, Account), Linked(t, id, Service), Linked(t, id, Team), Linked(t, id, Group), Linked(t, id, Company),
        if id in t.measurements then t.measurements[id] else "unavailable",
        if id in t.priceKnowledge then t.priceKnowledge[id] else false)
  }

  function Linked(t: Tables, id: RecordId, d: Dimension): string {
    if (id, d) in t.links then t.links[(id, d)] else UNATTRIBUTED
  }

  // The rows a query returns; their order is left open.
  function Selected(t: Tables, start: Option<int>, end: Option<int>): set<Row> {
    set id | id in t.usage && WithinWindow(t.usage[id].createdAt, start, end) :: SelectedRow(t, id)
  }

  // What normalisation makes of a flattened row: the provider as upstream, blanks unattributed.
  function Normalised(row: Row): Row {
    row.(upstreamApi := row.core.providerName,
         accountName := OrUnattributed(row.accountName), serviceName := OrUnattributed(row.serviceName),
         teamName := OrUnattributed(row.teamName), groupName := OrUnattributed(row.groupName),
         companyName := OrUnattributed(row.companyName))
  }

  // Normalisation touches the upstream column and blank attributions only.
  lemma NormalisedColumns(row: Row)
    ensures Normalised(row).core == row.core && Normalised(row).upstreamApi == row.core.providerName
    ensures Normalised(row).measurementStatus == row.measurementStatus && Normalised(row).priceKnown == row.priceKnown
    ensures Normalised(row).accountName == (if row.accountName != "" then row.accountName else "unattributed")
    ensures Normalised(row).serviceName == (if row.serviceName != "" then row.serviceName else "unattributed")
    ensures Normalised(row).teamName == (if row.teamName != "" then row.teamName else "unattributed")
    ensures Normalised(row).groupName == (if row.groupName != "" then row.groupName else "unattributed")
    ensures Normalised(row).companyName == (if row.companyName != "" then row.companyName else "unattributed")
    ensures Normalised(row) == row <==>
      row.upstreamApi == row.core.providerName && "" !in {row.accountName, row.serviceName, row.teamName, row.groupName, row.companyName}
  {
  }

  function RowId(): Row -> RecordId { (row: Row) => row.core.id }

  ghost predicate DistinctIds(rows: seq<Row>) {
    DistinctBy(RowId(), rows)
  }

  // The tables hold exactly the rows of the list.
  ghost predicate Represents(t: Tables, rows: seq<Row>) {
    && TablesOk(t)
    && DistinctIds(rows)
    && t.usage.Keys == Ids(rows)
    && (forall i :: 0 <= i < |rows| ==> rows[i].core.id in t.usage && SelectedRow(t, rows[i].core.id) == Normalised(rows[i]))
  }

  lemma StoredSelects(t: Tables, row: Row, id: RecordId)
    requires TablesOk(t) && row.core.id !in t.usage && (id in t.usage || id == row.core.id)
    ensures id in Stored(t, row).usage
    ensures SelectedRow(Stored(t, row), id) == if id == row.core.id then Normalised(row) else SelectedRow(t, id)
  {
    StoredKeepsTablesOk(t, row);
    var next := Stored(t, row);
    assert forall d :: Linked(next, id, d) == if id == row.core.id then OrUnattributed(Column(row, d)) else Linked(t, id, d);
  }

  // The SQL store returns copies, so reading records there rewrites nothing: the two stores
  // still agree afterwards exactly when no unavailable row of the window held a count or a cost.
  lemma StoresAgreeAfterRecordsIff(t: Tables, rows: seq<Row>, start: Option<int>, end: Option<int>)
    requires Represents(t, rows)
    ensures Represents(t, MaskWithin(rows, start, end))
      <==> forall i :: 0 <= i < |rows| && InWindow(start, end)(rows[i]) ==> !Maskable(rows[i])
  {
    hide TablesOk, SelectedRow, Ids, DistinctIds, Maskable;
    var masked := MaskWithin(rows, start, end);
    RecordsRewritesIff(rows, start, end);
    MaskWithinKeepsIds(rows, start, end);
    if masked != rows {
      var i :| 0 <= i < |rows| && masked[i] != rows[i];
      assert Normalised(masked[i]).core != Normalised(rows[i]).core;
    }
  }

  lemma AppendRefinesList(t: Tables, rows: seq<Row>, row: Row)
    requires Represents(t, rows)
    ensures row.core.id in t.usage <==> row.core.id in Ids(rows)
    ensures row.core.id !in t.usage ==> Represents(Stored(t, row), rows + [row])
  {
    hide TablesOk, SelectedRow, Normalised, Linked, LinkValues, AddLinks, Ids, DistinctIds;
    if row.core.id !in t.usage {
      var next, more := Stored(t, row), rows + [row];
      StoredKeepsTablesOk(t, row);
      IdsSnoc(rows, row);
      forall i | 0 <= i < |more|
        ensures more[i].core.id in next.usage && SelectedRow(next, more[i].core.id) == Normalised(more[i])
      {
        if i < |rows| { IdOfMember(rows, i); }
        StoredSelects(t, row, more[i].core.id);
      }
    }
  }

  lemma IdOfMember(rows: seq<Row>, i: nat)
    requires i < |rows|
    ensures rows[i].core.id in Ids(rows)
  {
    assert rows[i] in rows;
  }

  lemma IdsSnoc(rows: seq<Row>, row: Row)
    ensures Ids(rows + [row]) == Ids(rows) + {row.core.id}
    ensures DistinctIds(rows) && row.core.id !in Ids(rows) ==> DistinctIds(rows + [row])
  {
    assert forall r :: r in rows + [row] <==> r in rows || r == row;
    if row.core.id !in Ids(rows) {
      forall i | 0 <= i < |rows| ensures rows[i].core.id != row.core.id { IdOfMember(rows, i); }
    }
  }

  // Both stores through the same calls: where the SQL append raises, the record is in neither.
  datatype Operation = Operation(row: Row, raises: bool)

  function ListAfter(ops: seq<Operation>): seq<Row> {
    if ops == [] then []
    else
      var before, op := ListAfter(ops[..|ops| - 1]), ops[|ops| - 1];
      if op.raises || op.row.core.id in Ids(before) then before else before + [op.row]
  }

  function TablesAfter(ops: seq<Operation>): Tables {
    if ops == [] then EMPTY
    else
      var before, op := TablesAfter(ops[..|ops| - 1]), ops[|ops| - 1];
      if op.raises || op.row.core.id in before.usage then before else Stored(before, op.row)
  }

  lemma {:induction false} StoresStayInStep(ops: seq<Operation>)
    ensures Represents(TablesAfter(ops), ListAfter(ops))
  {
    if ops != [] {
      StoresStayInStep(ops[..|ops| - 1]);
      AppendRefinesList(TablesAfter(ops[..|ops| - 1]), ListAfter(ops[..|ops| - 1]), ops[|ops| - 1].row);
    }
  }

  function Normalise(rows: seq<Row>): seq<Row> {
    seq(|rows|, i requires 0 <= i < |rows| => Normalised(rows[i]))
  }

  lemma FoundIsSelected(t: Tables, rows: seq<Row>, start: Option<int>, end: Option<int>, row: Row)
    requires Represents(t, rows) && row in Filter(InWindow(start, end), rows)
    ensures Normalised(row) in Selected(t, start, end)
  {
    FilterMembers(InWindow(start, end), rows);
    var i :| 0 <= i < |rows| && rows[i] == row;
    assert SelectedRow(t, rows[i].core.id).core == t.usage[rows[i].core.id];
  }

  lemma SelectedIsFound(t: Tables, rows: seq<Row>, start: Option<int>, end: Option<int>, r: Row) returns (row: Row)
    requires Represents(t, rows) && r in Selected(t, start, end)
    ensures row in Filter(InWindow(start, end), rows) && Normalised(row) == r
  {
    FilterMembers(InWindow(start, end), rows);
    var id :| id in t.usage && WithinWindow(t.usage[id].createdAt, start, end) && SelectedRow(t, id) == r;
    assert id in Ids(rows);
    row :| row in rows && row.core.id == id;
    var i :| 0 <= i < |rows| && rows[i] == row;
    assert SelectedRow(t, rows[i].core.id) == Normalised(rows[i]);
  }

  // Any window reads the same rows from either store, up to normalisation and order.
  lemma QueryRefinesList(t: Tables, rows: seq<Row>, start: Option<int>, end: Option<int>)
    requires Represents(t, rows)
    ensures multiset(Normalise(Filter(InWindow(start, end), rows))) == multiset(Selected(t, start, end))
  {
    hide Filter, Selected, Normalised;
    var found := Filter(InWindow(start, end), rows);
    var shown := Normalise(found);
    FilterKeepsDistinct(RowId(), InWindow(start, end), rows);
    NormaliseKeepsIds(found);
    forall r ensures r in shown <==> r in Selected(t, start, end) {
      if r in shown {
        var k :| 0 <= k < |shown| && shown[k] == r;
        FoundIsSelected(t, rows, start, end, found[k]);
      }
      if r in Selected(t, start, end) {
        var row := SelectedIsFound(t, rows, start, end, r);
        var k :| 0 <= k < |found| && found[k] == row;
        assert shown[k] == r;
      }
    }
    DistinctListsTheirSet(shown, Selected(t, start, end));
  }

  lemma NormaliseKeepsIds(rows: seq<Row>)
    requires DistinctIds(rows)
    ensures DistinctIds(Normalise(rows))
  {
    forall i | 0 <= i < |rows| ensures Normalise(rows)[i].core.id == rows[i].core.id {}
  }

  lemma {:induction false} DistinctListsTheirSet(rows: seq<Row>, s: set<Row>)
    requires DistinctIds(rows)
    requires forall r :: r in rows <==> r in s
    ensures multiset(rows) == multiset(s)
  {
    forall r: Row ensures multiset(rows)[r] == multiset(s)[r] {
      CountOfDistinct(rows, r);
    }
  }

  lemma {:induction false} CountOfDistinct(rows: seq<Row>, r: Row)
    requires DistinctIds(rows)
    ensures multiset(rows)[r] == if r in rows then 1 else 0
  {
    if rows != [] {
      CountOfDistinct(rows[1..], r);
      assert rows == [rows[0]] + rows[1..];
    }
  }
}
