// Which usage records reach the billing sink, when the caller of the ledger owns the database
// transaction (contextual_orchestrator/cost_ledger.py, CostLedger and NonBlockingLedgerStore).

module UsageExports {
  import opened Prelude

  type RecordId = string

  // One record_usage() call and the record it built.
  datatype Call = Call(number: nat, id: RecordId)

  // The store as its callers see it: ids that are durable, and ids visible inside the
  // transaction the caller has open. An append that raises changes nothing.
  datatype Store = Store(committed: set<RecordId>, transaction: Option<set<RecordId>>)

  function Visible(store: Store): set<RecordId> {
    if store.transaction.Some? then store.transaction.value else store.committed
  }

  function AppendId(store: Store, id: RecordId): Store {
    if store.transaction.Some? then store.(transaction := Some(store.transaction.value + {id}))
    else store.(committed := store.committed + {id})
  }

  ghost predicate StoreOk(store: Store) {
    store.transaction.Some? ==> store.committed <= store.transaction.value
  }

  predicate CanBegin(store: Store) { store.transaction == None }

  function Begin(store: Store): Store { store.(transaction := Some(store.committed)) }

  function Commit(store: Store): Store
    requires store.transaction.Some?
  {
    Store(store.transaction.value, None)
  }

  function Rollback(store: Store): Store { store.(transaction := None) }

  // ----- counting ---------------------------------------------------------------------

  function One(b: bool): nat { if b then 1 else 0 }

  function Times(calls: seq<Call>, number: nat): nat {
    if calls == [] then 0 else One(calls[0].number == number) + Times(calls[1..], number)
  }

  function HasId(ids: set<RecordId>): Call -> bool { (c: Call) => c.id in ids }
  function LacksId(ids: set<RecordId>): Call -> bool { (c: Call) => c.id !in ids }

  lemma {:induction false} TimesAppend(a: seq<Call>, b: seq<Call>, number: nat)
    ensures Times(a + b, number) == Times(a, number) + Times(b, number)
  {
    if a == [] {
      assert a + b == b;
    } else {
      assert (a + b)[1..] == a[1..] + b;
      TimesAppend(a[1..], b, number);
    }
  }

  lemma TimesNothing(number: nat)
    ensures Times([], number) == 0
  {
  }

  lemma TimesFirst(calls: seq<Call>, number: nat)
    requires calls != []
    ensures Times(calls, number) == One(calls[0].number == number) + Times(calls[1..], number)
  {
  }

  lemma TimesSnoc(a: seq<Call>, c: Call, number: nat)
    ensures Times(a + [c], number) == Times(a, number) + One(c.number == number)
  {
    TimesAppend(a, [c], number);
    assert [c][1..] == [];
  }

  // How many of the calls recorded one id.
  function TimesId(calls: seq<Call>, id: RecordId): nat {
    if calls == [] then 0 else One(calls[0].id == id) + TimesId(calls[1..], id)
  }

  predicate Occurs(calls: seq<Call>, id: RecordId) {
    exists c :: c in calls && c.id == id
  }

  // No id is listed twice.
  ghost predicate IdsDistinct(calls: seq<Call>) {
    forall i, j :: 0 <= i < j < |calls| ==> calls[i].id != calls[j].id
  }

  lemma {:induction false} TimesIdAppend(a: seq<Call>, b: seq<Call>, id: RecordId)
    ensures TimesId(a + b, id) == TimesId(a, id) + TimesId(b, id)
  {
    if a == [] {
      assert a + b == b;
    } else {
      assert (a + b)[1..] == a[1..] + b;
      TimesIdAppend(a[1..], b, id);
    }
  }

  lemma TimesIdSnoc(a: seq<Call>, c: Call, id: RecordId)
    ensures TimesId(a + [c], id) == TimesId(a, id) + One(c.id == id)
    ensures TimesId([c], id) == One(c.id == id)
    ensures TimesId([], id) == 0
  {
    TimesIdAppend(a, [c], id);
    assert [c][1..] == [];
  }

  lemma {:induction false} OccursIff(calls: seq<Call>, id: RecordId)
    ensures Occurs(calls, id) <==> TimesId(calls, id) > 0
  {
    if calls != [] {
      assert calls == [calls[0]] + calls[1..];
      OccursIff(calls[1..], id);
    }
  }

  lemma {:induction false} DistinctOccursOnce(calls: seq<Call>, id: RecordId)
    requires IdsDistinct(calls)
    ensures TimesId(calls, id) <= 1
  {
    if calls != [] {
      var first, rest := calls[0], calls[1..];
      assert forall k :: 0 <= k < |rest| ==> rest[k] == calls[k + 1];
      DistinctOccursOnce(rest, id);
      OccursIff(rest, first.id);
    }
  }

  lemma {:induction false} TwiceIsNotOnce(calls: seq<Call>, i: nat, j: nat)
    requires i < j < |calls| && calls[i].id == calls[j].id
    ensures TimesId(calls, calls[i].id) >= 2
  {
    if i == 0 {
      assert calls[1..][j - 1] in calls[1..];
      OccursIff(calls[1..], calls[i].id);
    } else {
      TwiceIsNotOnce(calls[1..], i - 1, j - 1);
    }
  }

  lemma DistinctIff(calls: seq<Call>)
    ensures IdsDistinct(calls) <==> forall id :: TimesId(calls, id) <= 1
  {
    if IdsDistinct(calls) {
      forall id ensures TimesId(calls, id) <= 1 { DistinctOccursOnce(calls, id); }
    } else {
      var i, j :| 0 <= i < j < |calls| && calls[i].id == calls[j].id;
      TwiceIsNotOnce(calls, i, j);
    }
  }

  // A settlement keeps every call of a confirmed id and none of another.
  lemma {:induction false} TimesIdSettled(pending: seq<Call>, ids: set<RecordId>, id: RecordId)
    ensures TimesId(Filter(HasId(ids), pending), id) == if id in ids then TimesId(pending, id) else 0
    ensures TimesId(Filter(LacksId(ids), pending), id) == if id in ids then 0 else TimesId(pending, id)
  {
    if pending != [] {
      var first, rest := pending[0], pending[1..];
      TimesIdSettled(rest, ids, id);
      TimesIdAppend(if first.id in ids then [first] else [], Filter(HasId(ids), rest), id);
      TimesIdAppend(if first.id in ids then [] else [first], Filter(LacksId(ids), rest), id);
    }
  }

  // Calls with distinct ids from a set are no more than the set holds.
  lemma {:induction false} DistinctFit(calls: seq<Call>, ids: set<RecordId>)
    requires IdsDistinct(calls) && AllIn(calls, ids)
    ensures |calls| <= |ids|
  {
    if calls != [] {
      assert calls[0].id in ids;
      forall i | 0 <= i < |calls[1..]| ensures calls[1..][i].id in ids - {calls[0].id} {
        assert calls[1..][i] == calls[i + 1];
      }
      DistinctFit(calls[1..], ids - {calls[0].id});
    }
  }

  lemma {:induction false} SettlementSplits(pending: seq<Call>, ids: set<RecordId>, number: nat)
    ensures |Filter(HasId(ids), pending)| + |Filter(LacksId(ids), pending)| == |pending|
    ensures Times(Filter(HasId(ids), pending), number) + Times(Filter(LacksId(ids), pending), number) == Times(pending, number)
  {
    if pending != [] {
      SettlementSplits(pending[1..], ids, number);
      TimesAppend(if pending[0].id in ids then [pending[0]] else [], Filter(HasId(ids), pending[1..]), number);
      TimesAppend(if pending[0].id in ids then [] else [pending[0]], Filter(LacksId(ids), pending[1..]), number);
    }
  }

  ghost predicate AllIn(calls: seq<Call>, ids: set<RecordId>) {
    forall i :: 0 <= i < |calls| ==> calls[i].id in ids
  }

  lemma ExportsStayCommitted(emitted: seq<Call>, pending: seq<Call>, ids: set<RecordId>)
    requires AllIn(emitted, ids)
    ensures AllIn(emitted + Filter(HasId(ids), pending), ids)
  {
    FilterMembers(HasId(ids), pending);
    var kept := Filter(HasId(ids), pending);
    forall i | 0 <= i < |kept| ensures kept[i].id in ids { assert kept[i] in kept; }
  }
}
