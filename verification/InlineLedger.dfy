// The inline ledger: every record_usage() call writes to the store at once, and exports wait
// for the caller's transaction (contextual_orchestrator/cost_ledger.py, CostLedger).

module InlineLedger {
  import opened Prelude
  import opened UsageExports

  // `calls`, `appendFailures` and `lookupFailures` are history; the other counters are the
  // ledger's own health counters, where `storeFailures` mixes the two kinds of failure.
  datatype Ledger = Ledger(
    store: Store, deferred: seq<Call>, emitted: seq<Call>,
    accepted: int, stored: int, dropped: int, storeFailures: int,
    calls: nat, appendFailures: nat, lookupFailures: nat)

  const INITIAL := Ledger(Store({}, None), [], [], 0, 0, 0, 0, 0, 0, 0)

  datatype Event =
    | BeginTransaction
    | CommitTransaction
    | RollbackTransaction
    | RecordUsage(id: RecordId, lookupRaises: bool, appendRaises: bool)
    | Flush(lookupRaises: bool)

  predicate Enabled(l: Ledger, e: Event) {
    match e
    case BeginTransaction => CanBegin(l.store)
    case CommitTransaction => l.store.transaction.Some?
    case RollbackTransaction => l.store.transaction.Some?
    case RecordUsage(_, _, _) => true
    case Flush(_) => true
  }

  // _flush_deferred_usage_exports
  function Settle(l: Ledger, lookupRaises: bool): Ledger {
    if l.store.transaction.Some? || l.deferred == [] then l
    else if lookupRaises then l.(storeFailures := l.storeFailures + 1, lookupFailures := l.lookupFailures + 1)
    else
      var lost := |Filter(LacksId(l.store.committed), l.deferred)|;
      l.(deferred := [], emitted := l.emitted + Filter(HasId(l.store.committed), l.deferred),
         stored := l.stored - lost, dropped := l.dropped + lost)
  }

  // The write and its bookkeeping, after the deferred exports were settled.
  function Write(l: Ledger, id: RecordId, appendRaises: bool, sink: bool): Ledger {
    var call := Call(l.calls, id);
    var counted := l.(calls := l.calls + 1);
    if appendRaises then
      counted.(accepted := l.accepted + 1, storeFailures := l.storeFailures + 1, appendFailures := l.appendFailures + 1)
    else if id in Visible(l.store) then counted.(dropped := l.dropped + 1)
    else
      var written := counted.(store := AppendId(l.store, id), accepted := l.accepted + 1, stored := l.stored + 1);
      if !sink then written
      else if l.store.transaction.Some? then written.(deferred := l.deferred + [call])
      else written.(emitted := l.emitted + [call])
  }

  function Apply(l: Ledger, e: Event, sink: bool): Ledger
    requires Enabled(l, e)
  {
    match e
    case BeginTransaction => l.(store := Begin(l.store))
    case CommitTransaction => l.(store := Commit(l.store))
    case RollbackTransaction => l.(store := Rollback(l.store))
    case RecordUsage(id, lookupRaises, appendRaises) => Write(Settle(l, lookupRaises), id, appendRaises, sink)
    case Flush(lookupRaises) => Settle(l, lookupRaises)
  }

  // ----- the invariant --------------------------------------------------------------

  ghost predicate Inv(l: Ledger, sink: bool) {
    && StoreOk(l.store)
    // every call ended as stored, dropped or failed
    && l.calls == l.stored + l.dropped + l.appendFailures
    && l.storeFailures == l.appendFailures + l.lookupFailures
    // what counts as stored is exported or still waits for the caller
    && (sink ==> l.stored == |l.emitted| + |l.deferred|)
    && (!sink ==> l.emitted == [] && l.deferred == [])
    // only committed ids are exported, and no accepted append twice
    && AllIn(l.emitted, l.store.committed)
    && (forall n: nat :: Times(l.emitted, n) + Times(l.deferred, n) <= One(n < l.calls))
  }

  lemma SettleKeepsInv(l: Ledger, lookupRaises: bool, sink: bool)
    requires Inv(l, sink)
    ensures Inv(Settle(l, lookupRaises), sink) && Settle(l, lookupRaises).store == l.store
    ensures l.store.transaction == None && !lookupRaises ==> Settle(l, lookupRaises).deferred == []
  {
    hide Filter;
    if l.store.transaction == None && l.deferred != [] && !lookupRaises {
      var next := Settle(l, lookupRaises);
      var kept := Filter(HasId(l.store.committed), l.deferred);
      SettlementSplits(l.deferred, l.store.committed, 0);
      ExportsStayCommitted(l.emitted, l.deferred, l.store.committed);
      if !sink { assert false; }
      forall n: nat ensures Times(next.emitted, n) + Times(next.deferred, n) <= One(n < next.calls) {
        SettlementSplits(l.deferred, l.store.committed, n);
        TimesAppend(l.emitted, kept, n);
        assert Times(l.emitted, n) + Times(l.deferred, n) <= One(n < l.calls);
      }
    }
  }

  lemma WriteKeepsInv(l: Ledger, id: RecordId, appendRaises: bool, sink: bool)
    requires Inv(l, sink)
    ensures Inv(Write(l, id, appendRaises, sink), sink)
    ensures l.store.committed <= Write(l, id, appendRaises, sink).store.committed
  {
    var next := Write(l, id, appendRaises, sink);
    var call := Call(l.calls, id);
    forall n: nat ensures Times(next.emitted, n) + Times(next.deferred, n) <= One(n < next.calls) {
      TimesSnoc(l.emitted, call, n);
      TimesSnoc(l.deferred, call, n);
      assert Times(l.emitted, n) + Times(l.deferred, n) <= One(n < l.calls);
    }
  }

  lemma StepKeepsInv(l: Ledger, e: Event, sink: bool)
    requires Inv(l, sink) && Enabled(l, e)
    ensures Inv(Apply(l, e, sink), sink)
    ensures l.store.committed <= Apply(l, e, sink).store.committed
  {
    hide Inv, Settle, Write;
    match e
    case RecordUsage(id, lookupRaises, appendRaises) =>
      SettleKeepsInv(l, lookupRaises, sink);
      WriteKeepsInv(Settle(l, lookupRaises), id, appendRaises, sink);
    case Flush(lookupRaises) => SettleKeepsInv(l, lookupRaises, sink);
    case _ => TransactionStepKeepsInv(l, e, sink);
  }

  lemma TransactionStepKeepsInv(l: Ledger, e: Event, sink: bool)
    requires Inv(l, sink) && Enabled(l, e) && (e.BeginTransaction? || e.CommitTransaction? || e.RollbackTransaction?)
    ensures Inv(Apply(l, e, sink), sink)
    ensures l.store.committed <= Apply(l, e, sink).store.committed
  {
    hide Filter, Times;
    assert forall n: nat :: Times(Apply(l, e, sink).emitted, n) == Times(l.emitted, n);
  }

  ghost predicate Run(ledgers: seq<Ledger>, events: seq<Event>, sink: bool) {
    && |ledgers| == |events| + 1
    && ledgers[0] == INITIAL
    && forall k :: 0 <= k < |events| ==> Enabled(ledgers[k], events[k]) && ledgers[k + 1] == Apply(ledgers[k], events[k], sink)
  }

  // For any sequence of records and flushes interleaved with begin, commit and rollback.
  lemma {:induction false} EveryRunKeepsInv(ledgers: seq<Ledger>, events: seq<Event>, sink: bool, k: nat)
    requires Run(ledgers, events, sink) && k < |ledgers|
    ensures Inv(ledgers[k], sink)
  {
    if k > 0 {
      EveryRunKeepsInv(ledgers, events, sink, k - 1);
      StepKeepsInv(ledgers[k - 1], events[k - 1], sink);
    }
  }

  // ----- what one record achieves ------------------------------------------------------

  // With or without a sink, a record reaches the store unless its append raises or its id is
  // there already: it is durable at once outside a transaction, inside one with the caller's
  // commit, and gone with the caller's rollback. Every record adds to exactly one of the
  // outcomes stored, dropped and failed.
  lemma RecordReachesStoreIff(l: Ledger, id: RecordId, lookupRaises: bool, appendRaises: bool, sink: bool)
    ensures var settled, next := Settle(l, lookupRaises), Apply(l, RecordUsage(id, lookupRaises, appendRaises), sink);
      var isNew := !appendRaises && id !in (if l.store.transaction.Some? then l.store.transaction.value else l.store.committed);
      && next.stored == settled.stored + (if isNew then 1 else 0)
      && next.appendFailures == settled.appendFailures + (if appendRaises then 1 else 0)
      && next.dropped == settled.dropped + (if isNew || appendRaises then 0 else 1)
      && (match l.store.transaction
          case None => next.store == Store(l.store.committed + (if isNew then {id} else {}), None)
          case Some(ids) =>
            && next.store.transaction.Some?
            && Apply(next, CommitTransaction, sink).store == Store(ids + (if isNew then {id} else {}), None)
            && Apply(next, RollbackTransaction, sink).store == Store(l.store.committed, None))
  {
    hide Filter;
  }

  // What settling does to one id: outside a transaction, and when the lookup answers, nothing
  // stays deferred, every deferred call of a committed id is exported, and every other one is
  // counted as dropped instead of stored.
  lemma SettledById(l: Ledger, id: RecordId)
    requires l.store.transaction == None
    ensures var settled := Settle(l, false);
      && settled.deferred == [] && settled.store == l.store
      && TimesId(settled.emitted, id) == TimesId(l.emitted, id) + (if id in l.store.committed then TimesId(l.deferred, id) else 0)
      && settled.stored + settled.dropped == l.stored + l.dropped
      && |settled.emitted| + settled.dropped == |l.emitted| + |l.deferred| + l.dropped
  {
    hide Filter, TimesId, Times;
    TimesIdAppend(l.emitted, Filter(HasId(l.store.committed), l.deferred), id);
    TimesIdSettled(l.deferred, l.store.committed, id);
    SettlementSplits(l.deferred, l.store.committed, 0);
    OccursIff([], id);
  }

  // ----- one export per id -----------------------------------------------------------

  // Exported and still deferred calls together name each id once.
  ghost predicate OneExportPerId(l: Ledger) {
    forall id :: TimesId(l.emitted, id) + TimesId(l.deferred, id) <= 1
  }

  // Recording anew the id of a deferred record that was rolled back, before that record is settled.
  predicate ReusesUnsettledId(l: Ledger, e: Event) {
    && e.RecordUsage? && !e.appendRaises && e.id !in Visible(l.store)
    && (l.store.transaction.Some? || e.lookupRaises)
    && Occurs(l.deferred, e.id)
  }

  lemma SettleKeepsOneExport(l: Ledger, lookupRaises: bool)
    requires OneExportPerId(l)
    ensures OneExportPerId(Settle(l, lookupRaises))
  {
    hide Filter, TimesId;
    var kept := Filter(HasId(l.store.committed), l.deferred);
    forall id ensures TimesId(Settle(l, lookupRaises).emitted, id) + TimesId(Settle(l, lookupRaises).deferred, id) <= 1 {
      assert TimesId(l.emitted, id) + TimesId(l.deferred, id) <= 1;
      TimesIdAppend(l.emitted, kept, id);
      TimesIdSettled(l.deferred, l.store.committed, id);
      TimesIdSnoc([], Call(0, id), id);
    }
  }

  // The write adds one occurrence of the recorded id and of no other.
  lemma WriteCounts(l: Ledger, id: RecordId, appendRaises: bool, other: RecordId)
    ensures var next := Write(l, id, appendRaises, true);
      TimesId(next.emitted, other) + TimesId(next.deferred, other)
      == TimesId(l.emitted, other) + TimesId(l.deferred, other) + One(!appendRaises && id !in Visible(l.store) && id == other)
  {
    TimesIdSnoc(l.emitted, Call(l.calls, id), other);
    TimesIdSnoc(l.deferred, Call(l.calls, id), other);
  }

  lemma NotYetExported(l: Ledger, id: RecordId)
    requires Inv(l, true) && id !in Visible(l.store)
    ensures TimesId(l.emitted, id) == 0
  {
    OccursIff(l.emitted, id);
  }

  // A record keeps exported and deferred calls unique per id exactly when it does not reuse an
  // unsettled id.
  lemma RecordKeepsOneExportIff(l: Ledger, id: RecordId, lookupRaises: bool, appendRaises: bool)
    requires Inv(l, true) && OneExportPerId(l)
    ensures var e := RecordUsage(id, lookupRaises, appendRaises);
      OneExportPerId(Apply(l, e, true)) <==> !ReusesUnsettledId(l, e)
  {
    hide TimesId, Write, Inv;
    var settled := Settle(l, lookupRaises);
    var next := Write(settled, id, appendRaises, true);
    SettleKeepsInv(l, lookupRaises, true);
    SettleKeepsOneExport(l, lookupRaises);
    forall other ensures TimesId(next.emitted, other) + TimesId(next.deferred, other)
      == TimesId(settled.emitted, other) + TimesId(settled.deferred, other)
         + One(!appendRaises && id !in Visible(settled.store) && id == other)
    {
      WriteCounts(settled, id, appendRaises, other);
    }
    assert TimesId(settled.emitted, id) + TimesId(settled.deferred, id) <= 1;
    OccursIff(settled.deferred, id);
    if !appendRaises && id !in Visible(settled.store) {
      NotYetExported(settled, id);
      assert OneExportPerId(next) <==> !Occurs(settled.deferred, id);
    }
  }

  lemma StepKeepsOneExport(l: Ledger, e: Event)
    requires Inv(l, true) && OneExportPerId(l) && Enabled(l, e) && !ReusesUnsettledId(l, e)
    ensures OneExportPerId(Apply(l, e, true))
  {
    hide Settle, Write, Inv, TimesId;
    match e
    case RecordUsage(id, lookupRaises, appendRaises) => RecordKeepsOneExportIff(l, id, lookupRaises, appendRaises);
    case Flush(lookupRaises) => SettleKeepsOneExport(l, lookupRaises);
    case _ =>
      assert Apply(l, e, true).emitted == l.emitted && Apply(l, e, true).deferred == l.deferred;
  }

  lemma OneExportPerIdMeans(l: Ledger)
    requires OneExportPerId(l)
    ensures IdsDistinct(l.emitted)
  {
    hide TimesId;
    forall id ensures TimesId(l.emitted, id) <= 1 { assert TimesId(l.emitted, id) + TimesId(l.deferred, id) <= 1; }
    DistinctIff(l.emitted);
  }

  // Along every run that reuses no unsettled id, no id is exported twice.
  lemma {:induction false} EveryRunExportsIdsOnce(ledgers: seq<Ledger>, events: seq<Event>, k: nat)
    requires Run(ledgers, events, true) && k < |ledgers|
    requires forall j :: 0 <= j < k ==> !ReusesUnsettledId(ledgers[j], events[j])
    ensures OneExportPerId(ledgers[k]) && IdsDistinct(ledgers[k].emitted)
  {
    hide Apply, Enabled, Inv;
    if k > 0 {
      EveryRunExportsIdsOnce(ledgers, events, k - 1);
      EveryRunKeepsInv(ledgers, events, true, k - 1);
      StepKeepsOneExport(ledgers[k - 1], events[k - 1]);
    }
    OneExportPerIdMeans(ledgers[k]);
  }

  // A record, then a commit where a transaction is open, then a flush.
  function RecordCommitFlush(l: Ledger, e: Event): Ledger
    requires e.RecordUsage?
  {
    var recorded := Apply(l, e, true);
    var committed := if recorded.store.transaction.Some? then Apply(recorded, CommitTransaction, true) else recorded;
    Apply(committed, Flush(false), true)
  }

  // A record that reuses an unsettled id, and is then committed and flushed, is exported twice;
  // any other record leaves exports unique per id.
  lemma CommittedRecordIsExportedOnceIff(l: Ledger, e: Event)
    requires Inv(l, true) && OneExportPerId(l) && e.RecordUsage?
    ensures IdsDistinct(RecordCommitFlush(l, e).emitted) <==> !ReusesUnsettledId(l, e)
  {
    hide Inv, TimesId, Settle, Write;
    var recorded := Apply(l, e, true);
    var committed := if recorded.store.transaction.Some? then Apply(recorded, CommitTransaction, true) else recorded;
    StepKeepsInv(l, e, true);
    if ReusesUnsettledId(l, e) {
      ReusedIdIsPending(l, e);
      FlushExportsPending(committed, e.id);
      DistinctIff(RecordCommitFlush(l, e).emitted);
    } else {
      StepKeepsOneExport(l, e);
      SettleKeepsOneExport(committed, false);
      OneExportPerIdMeans(RecordCommitFlush(l, e));
    }
  }

  // After the reuse two calls with the id are exported or deferred, and the store shows the id.
  lemma ReusedIdIsPending(l: Ledger, e: Event)
    requires ReusesUnsettledId(l, e)
    ensures var recorded := Apply(l, e, true);
      e.id in Visible(recorded.store) && TimesId(recorded.emitted, e.id) + TimesId(recorded.deferred, e.id) >= 2
  {
    hide TimesId;
    OccursIff(l.deferred, e.id);
    WriteCounts(Settle(l, e.lookupRaises), e.id, false, e.id);
  }

  lemma FlushExportsPending(l: Ledger, id: RecordId)
    requires l.store.transaction == None && id in l.store.committed
    ensures TimesId(Apply(l, Flush(false), true).emitted, id) == TimesId(l.emitted, id) + TimesId(l.deferred, id)
  {
    hide Filter;
    TimesIdAppend(l.emitted, Filter(HasId(l.store.committed), l.deferred), id);
    TimesIdSettled(l.deferred, l.store.committed, id);
  }

  // The shortest such run: one stored record, two exports of it.
  lemma RolledBackRecordIsExportedTwice(id: RecordId)
    ensures var e := RecordUsage(id, false, false);
      var l1 := Apply(INITIAL, BeginTransaction, true);
      var l2 := Apply(l1, e, true);
      var l3 := Apply(l2, RollbackTransaction, true);
      var l4 := Apply(l3, BeginTransaction, true);
      var l5 := Apply(l4, e, true);
      var l6 := Apply(l5, CommitTransaction, true);
      var l7 := Apply(l6, Flush(false), true);
      l7.store.committed == {id} && l7.emitted == [Call(0, id), Call(1, id)]
  {
    var pending := [Call(0, id), Call(1, id)];
    assert pending[1..] == [Call(1, id)];
    assert Filter(HasId({id}), pending[1..]) == [Call(1, id)] by { assert pending[1..][1..] == []; }
  }

  // ----- the ledger object -----------------------------------------------------------

  class CostLedger {
    const hasSink: bool
    var store: Store
    var deferred: seq<Call>
    var emitted: seq<Call>
    var accepted: int
    var stored: int
    var dropped: int
    var storeFailures: int
    var calls: nat
    var appendFailures: nat
    var lookupFailures: nat

    function View(): Ledger
      reads this
    {
      Ledger(store, deferred, emitted, accepted, stored, dropped, storeFailures, calls, appendFailures, lookupFailures)
    }

    constructor (hasSink: bool)
      ensures View() == INITIAL && this.hasSink == hasSink
    {
      this.hasSink := hasSink;
      store, deferred, emitted := Store({}, None), [], [];
      accepted, stored, dropped, storeFailures := 0, 0, 0, 0;
      calls, appendFailures, lookupFailures := 0, 0, 0;
    }

    // `lookupRaises` stands for the store failing to answer which ids it holds.
    // Outside a transaction the deferred calls of committed ids are exported in order and the
    // others turn from stored to dropped; a failing lookup only counts itself.
    method FlushDeferredUsageExports(lookupRaises: bool)
      modifies this`deferred, this`emitted, this`stored, this`dropped, this`storeFailures, this`lookupFailures
      ensures View() == Settle(old(View()), lookupRaises)
      ensures store.transaction.Some? || old(deferred) == [] ==> View() == old(View())
      ensures store.transaction == None && old(deferred) != [] && lookupRaises ==>
        View() == old(View()).(storeFailures := old(storeFailures) + 1, lookupFailures := old(lookupFailures) + 1)
      ensures store.transaction == None && !lookupRaises ==>
        deferred == [] && storeFailures == old(storeFailures) && lookupFailures == old(lookupFailures)
      ensures store.transaction == None && !lookupRaises ==> emitted == old(emitted) + Filter(HasId(store.committed), old(deferred))
      ensures store.transaction == None && !lookupRaises ==> stored == old(stored) - |Filter(LacksId(store.committed), old(deferred))|
      ensures store.transaction == None && !lookupRaises ==> dropped == old(dropped) + |Filter(LacksId(store.committed), old(deferred))|
    {
      hide Filter;
      NothingFiltered(HasId(store.committed));
      NothingFiltered(LacksId(store.committed));
      if store.transaction.Some? || deferred == [] { return; }
      var pending := deferred;
      if lookupRaises {
        storeFailures, lookupFailures := storeFailures + 1, lookupFailures + 1;
        return;
      }
      deferred := [];
      ghost var keeps, lacks := HasId(store.committed), LacksId(store.committed);
      for i := 0 to |pending|
        invariant View() == old(View()).(deferred := [], emitted := emitted, stored := stored, dropped := dropped)
        invariant emitted == old(emitted) + Filter(keeps, pending[..i])
        invariant stored == old(stored) - |Filter(lacks, pending[..i])|
        invariant dropped == old(dropped) + |Filter(lacks, pending[..i])|
      {
        assert pending[..i + 1] == pending[..i] + [pending[i]];
        FilterSnoc(keeps, pending[..i], pending[i]);
        FilterSnoc(lacks, pending[..i], pending[i]);
        if pending[i].id in store.committed {
          emitted := emitted + [pending[i]];
        } else {
          stored, dropped := stored - 1, dropped + 1;
        }
      }
      assert pending[..|pending|] == pending;
    }

    // After settling, with or without a sink: a new id reaches the store and counts as stored, a
    // failing append or a known id leaves the store alone and counts as that. With a sink the
    // new call is exported, or deferred while the caller has a transaction open.
    method RecordUsage(id: RecordId, lookupRaises: bool, appendRaises: bool)
      modifies this
      ensures View() == Apply(old(View()), Event.RecordUsage(id, lookupRaises, appendRaises), hasSink)
      ensures calls == old(calls) + 1
      ensures var settled := Settle(old(View()), lookupRaises);
        var known := id in (if old(store).transaction.Some? then old(store).transaction.value else old(store).committed);
        if appendRaises || known then
          && store == old(store) && emitted == settled.emitted && deferred == settled.deferred && stored == settled.stored
          && dropped == settled.dropped + (if appendRaises then 0 else 1)
          && storeFailures == settled.storeFailures + (if appendRaises then 1 else 0)
        else
          && accepted == settled.accepted + 1 && stored == settled.stored + 1
          && dropped == settled.dropped && storeFailures == settled.storeFailures
          && (match old(store).transaction
              case None => store == Store(old(store).committed + {id}, None)
              case Some(ids) => store == Store(old(store).committed, Some(ids + {id})))
          && emitted == settled.emitted + (if hasSink && old(store).transaction == None then [Call(old(calls), id)] else [])
          && deferred == settled.deferred + (if hasSink && old(store).transaction.Some? then [Call(old(calls), id)] else [])
    {
      hide Filter, Settle, Write;
      FlushDeferredUsageExports(lookupRaises);
      ghost var settled := Settle(old(View()), lookupRaises);
      assert View() == settled && store == old(store) && calls == old(calls);
      WriteRecord(id, appendRaises);
    }

    // The append and its bookkeeping.
    method WriteRecord(id: RecordId, appendRaises: bool)
      modifies this
      ensures View() == Write(old(View()), id, appendRaises, hasSink)
      ensures calls == old(calls) + 1
      ensures var known := id in (if old(store).transaction.Some? then old(store).transaction.value else old(store).committed);
        if appendRaises || known then
          && store == old(store) && emitted == old(emitted) && deferred == old(deferred) && stored == old(stored)
          && dropped == old(dropped) + (if appendRaises then 0 else 1)
          && storeFailures == old(storeFailures) + (if appendRaises then 1 else 0)
        else
          && accepted == old(accepted) + 1 && stored == old(stored) + 1
          && dropped == old(dropped) && storeFailures == old(storeFailures)
          && (match old(store).transaction
              case None => store == Store(old(store).committed + {id}, None)
              case Some(ids) => store == Store(old(store).committed, Some(ids + {id})))
          && emitted == old(emitted) + (if hasSink && old(store).transaction == None then [Call(old(calls), id)] else [])
          && deferred == old(deferred) + (if hasSink && old(store).transaction.Some? then [Call(old(calls), id)] else [])
    {
      var call := Call(calls, id);
      calls := calls + 1;
      if appendRaises {
        accepted, storeFailures, appendFailures := accepted + 1, storeFailures + 1, appendFailures + 1;
        return;
      }
      if id in Visible(store) {
        dropped := dropped + 1;
        return;
      }
      store := AppendId(store, id);
      accepted, stored := accepted + 1, stored + 1;
      if hasSink {
        if store.transaction.Some? {
          deferred := deferred + [call];
        } else {
          emitted := emitted + [call];
        }
      }
    }

    method Flush(lookupRaises: bool)
      modifies this`deferred, this`emitted, this`stored, this`dropped, this`storeFailures, this`lookupFailures
      ensures View() == Apply(old(View()), Event.Flush(lookupRaises), hasSink)
      ensures View() == Settle(old(View()), lookupRaises)
    {
      FlushDeferredUsageExports(lookupRaises);
    }
  }
}
