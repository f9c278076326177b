// The queueing ledger: a background worker writes, unless the caller has a transaction open
// (contextual_orchestrator/cost_ledger.py, NonBlockingLedgerStore, with a usage sink or without).
//
// The worker's write and its bookkeeping are two steps, between which the caller's own
// begin, commit and rollback may fall: both use one database connection.

module QueuedLedger {
  import opened Prelude
  import opened UsageExports

  datatype InHand =
    | Idle
    | Taken(call: Call)      // removed from the queue, not yet written
    | Written(call: Call)    // accepted by the store, not yet recorded

  datatype Ledger = Ledger(
    store: Store, queue: seq<Call>, inHand: InHand, deferred: seq<Call>, emitted: seq<Call>,
    stored: nat, dropped: nat, calls: nat, appendFailures: nat, lookupFailures: nat)

  const INITIAL := Ledger(Store({}, None), [], Idle, [], [], 0, 0, 0, 0, 0)

  // The queue's capacity, and whether a usage sink is attached.
  datatype Config = Config(capacity: nat, sink: bool)

  datatype Event =
    | BeginTransaction
    | CommitTransaction
    | RollbackTransaction
    | Append(id: RecordId, appendRaises: bool)
    | WorkerTake
    | WorkerWrite(raises: bool)
    | WorkerRecord
    | Flush(lookupRaises: bool)
    | SettleIds(ids: set<RecordId>)

  // flush() first waits for unfinished work; by the time it settles more may have been queued.
  predicate Enabled(l: Ledger, e: Event) {
    match e
    case BeginTransaction => CanBegin(l.store)
    case CommitTransaction => l.store.transaction.Some?
    case RollbackTransaction => l.store.transaction.Some?
    case Append(_, _) => true
    case WorkerTake => l.inHand == Idle && l.queue != []
    case WorkerWrite(_) => l.inHand.Taken?
    case WorkerRecord => l.inHand.Written?
    case Flush(_) => true
    case SettleIds(ids) => ids <= l.store.committed          // ids a lookup has confirmed
  }

  function Apply(l: Ledger, e: Event, config: Config): Ledger
    requires Enabled(l, e)
  {
    match e
    case BeginTransaction => l.(store := Begin(l.store))
    case CommitTransaction => l.(store := Commit(l.store))
    case RollbackTransaction => l.(store := Rollback(l.store))
    case Append(id, appendRaises) =>
      var call := Call(l.calls, id);
      var counted := l.(calls := l.calls + 1);
      if l.store.transaction.Some? then
        // The caller's transaction is open: write through, and defer the export if there is one.
        if appendRaises then counted.(appendFailures := l.appendFailures + 1)
        else if id in Visible(l.store) then counted.(dropped := l.dropped + 1)
        else if config.sink then counted.(store := AppendId(l.store, id), deferred := l.deferred + [call])
        else counted.(store := AppendId(l.store, id), stored := l.stored + 1)
      else if |l.queue| >= config.capacity then counted.(dropped := l.dropped + 1)
      else counted.(queue := l.queue + [call])
    case WorkerTake => l.(queue := l.queue[1..], inHand := Taken(l.queue[0]))
    case WorkerWrite(raises) =>
      var call := l.inHand.call;
      if raises then l.(inHand := Idle, appendFailures := l.appendFailures + 1)
      else if call.id in Visible(l.store) then l.(inHand := Idle, dropped := l.dropped + 1)
      else l.(store := AppendId(l.store, call.id), inHand := Written(call))
    case WorkerRecord =>
      if !config.sink then l.(inHand := Idle, stored := l.stored + 1)
      else if l.store.transaction.Some? then l.(inHand := Idle, deferred := l.deferred + [l.inHand.call])
      else l.(inHand := Idle, stored := l.stored + 1, emitted := l.emitted + [l.inHand.call])
    case Flush(lookupRaises) =>
      if l.store.transaction.Some? || l.deferred == [] then l
      else if lookupRaises then l.(lookupFailures := l.lookupFailures + 1)
      else Release(l, l.store.committed, config).(
             deferred := [], dropped := l.dropped + |Filter(LacksId(l.store.committed), l.deferred)|)
    case SettleIds(ids) =>
      if l.store.transaction.Some? then l
      else Release(l, ids, config).(deferred := Filter(LacksId(ids), l.deferred))
  }

  // Exports the deferred records with these ids and counts them as stored.
  function Release(l: Ledger, ids: set<RecordId>, config: Config): Ledger {
    var kept := Filter(HasId(ids), l.deferred);
    l.(emitted := if config.sink then l.emitted + kept else l.emitted, stored := l.stored + |kept|)
  }

  // ----- the invariant --------------------------------------------------------------

  function InHandCount(h: InHand): nat { if h.Idle? then 0 else 1 }

  function InHandTimes(h: InHand, number: nat): nat {
    if h.Idle? then 0 else One(h.call.number == number)
  }

  function Places(l: Ledger, number: nat): nat {
    Times(l.queue, number) + InHandTimes(l.inHand, number) + Times(l.deferred, number) + Times(l.emitted, number)
  }

  // Every call is stored, dropped, failed, or still outstanding; with a sink every stored one
  // was exported, without one nothing is.
  ghost predicate Counted(l: Ledger, config: Config) {
    && l.calls == l.stored + l.dropped + l.appendFailures + |l.queue| + InHandCount(l.inHand) + |l.deferred|
    && (config.sink ==> l.stored == |l.emitted|)
    && (!config.sink ==> l.emitted == [] && l.deferred == [])
  }

  ghost predicate Inv(l: Ledger, config: Config) {
    && StoreOk(l.store)
    && Counted(l, config)
    && (forall n: nat :: Places(l, n) <= One(n < l.calls))
    && AllIn(l.emitted, l.store.committed)
    && (config.sink && l.inHand.Written? ==> l.inHand.call.id in Visible(l.store))
  }

  // The one step that can export what is not committed: a rollback while the worker holds a
  // record it wrote into the caller's transaction.
  predicate RollsBackHeldRecord(l: Ledger, e: Event, config: Config) {
    config.sink && e.RollbackTransaction? && l.inHand.Written? && l.inHand.call.id !in l.store.committed
  }

  lemma PlacesAfter(l: Ledger, e: Event, config: Config, n: nat)
    requires Inv(l, config) && Enabled(l, e)
    ensures Places(Apply(l, e, config), n) <= One(n < Apply(l, e, config).calls)
  {
    hide Filter, AllIn, Times, StoreOk;
    TimesNothing(n);
    var next := Apply(l, e, config);
    assert Places(l, n) <= One(n < l.calls);
    match e
    case Append(id, _) =>
      TimesSnoc(l.deferred, Call(l.calls, id), n);
      TimesSnoc(l.queue, Call(l.calls, id), n);
    case WorkerTake =>
      TimesFirst(l.queue, n);
    case WorkerRecord =>
      TimesSnoc(l.deferred, l.inHand.call, n);
      TimesSnoc(l.emitted, l.inHand.call, n);
    case Flush(_) =>
      SettlementSplits(l.deferred, l.store.committed, n);
      TimesAppend(l.emitted, Filter(HasId(l.store.committed), l.deferred), n);
    case SettleIds(ids) =>
      SettlementSplits(l.deferred, ids, n);
      TimesAppend(l.emitted, Filter(HasId(ids), l.deferred), n);
    case _ =>
  }

  lemma EmittedAfter(l: Ledger, e: Event, config: Config)
    requires Inv(l, config) && Enabled(l, e) && !RollsBackHeldRecord(l, e, config)
    ensures AllIn(Apply(l, e, config).emitted, Apply(l, e, config).store.committed)
  {
    hide Filter, Times, Places;
    match e
    case Flush(_) => ExportsStayCommitted(l.emitted, l.deferred, l.store.committed);
    case SettleIds(ids) =>
      FilterMembers(HasId(ids), l.deferred);
      var kept := Filter(HasId(ids), l.deferred);
      forall i | 0 <= i < |kept| ensures kept[i].id in l.store.committed { assert kept[i] in kept; }
    case _ =>
  }

  lemma StepCounts(l: Ledger, e: Event, config: Config)
    requires Counted(l, config) && Enabled(l, e)
    ensures Counted(Apply(l, e, config), config)
  {
    hide Filter;
    NothingFiltered(HasId({}));
    if e.Flush? { SettlementSplits(l.deferred, l.store.committed, 0); }
    if e.SettleIds? { SettlementSplits(l.deferred, e.ids, 0); }
  }

  lemma StepKeepsInv(l: Ledger, e: Event, config: Config)
    requires Inv(l, config) && Enabled(l, e) && !RollsBackHeldRecord(l, e, config)
    ensures Inv(Apply(l, e, config), config)
  {
    hide Filter, Times, AllIn, Places, Counted;
    EmittedAfter(l, e, config);
    StepCounts(l, e, config);
    forall n: nat ensures Places(Apply(l, e, config), n) <= One(n < Apply(l, e, config).calls) {
      PlacesAfter(l, e, config, n);
    }
  }

  ghost predicate Run(ledgers: seq<Ledger>, events: seq<Event>, config: Config) {
    && |ledgers| == |events| + 1
    && ledgers[0] == INITIAL
    && forall k :: 0 <= k < |events| ==> Enabled(ledgers[k], events[k]) && ledgers[k + 1] == Apply(ledgers[k], events[k], config)
  }

  lemma InitialInv(config: Config)
    ensures Inv(INITIAL, config)
  {
  }

  // Any interleaving of caller, worker, flushes and settlements without such a rollback
  // exports only committed ids, each call at most once, and loses count of no call.
  lemma {:induction false} EveryRunKeepsInv(ledgers: seq<Ledger>, events: seq<Event>, config: Config, k: nat)
    requires Run(ledgers, events, config) && k < |ledgers|
    requires forall j :: 0 <= j < k ==> !RollsBackHeldRecord(ledgers[j], events[j], config)
    ensures Inv(ledgers[k], config)
  {
    hide Inv, Apply, Enabled;
    if k == 0 {
      InitialInv(config);
    } else {
      EveryRunKeepsInv(ledgers, events, config, k - 1);
      StepKeepsInv(ledgers[k - 1], events[k - 1], config);
    }
  }

  // Counting does not depend on that condition.
  lemma {:induction false} EveryRunCounts(ledgers: seq<Ledger>, events: seq<Event>, config: Config, k: nat)
    requires Run(ledgers, events, config) && k < |ledgers|
    ensures Counted(ledgers[k], config)
  {
    hide Counted, Inv, Apply, Enabled;
    if k == 0 {
      InitiallyCounted(config);
    } else {
      EveryRunCounts(ledgers, events, config, k - 1);
      StepCounts(ledgers[k - 1], events[k - 1], config);
    }
  }

  lemma InitiallyCounted(config: Config)
    ensures Counted(INITIAL, config)
  {
  }

  // ----- what one record achieves ---------------------------------------------------------

  // With or without a sink, a new record that the idle worker handles undisturbed is stored and
  // counted once; with a sink it is exported as well.
  lemma QueuedRecordIsStored(l: Ledger, id: RecordId, config: Config)
    requires l.store.transaction == None && l.queue == [] && l.inHand == Idle && config.capacity > 0
    requires id !in l.store.committed
    ensures var l1 := Apply(l, Append(id, false), config);
      var l2 := Apply(l1, WorkerTake, config);
      var l3 := Apply(l2, WorkerWrite(false), config);
      var l4 := Apply(l3, WorkerRecord, config);
      && l4.store == Store(l.store.committed + {id}, None) && l4.queue == [] && l4.inHand == Idle
      && l4.stored == l.stored + 1 && l4.dropped == l.dropped && l4.appendFailures == l.appendFailures
      && l4.emitted == l.emitted + (if config.sink then [Call(l.calls, id)] else []) && l4.deferred == l.deferred
  {
    assert [] + [Call(l.calls, id)] == [Call(l.calls, id)] && [Call(l.calls, id)][1..] == [];
  }

  // Written inside the caller's transaction, a new record is durable with the caller's commit
  // and gone with the rollback; it counts as stored at once without a sink, and with one when
  // it is settled after the commit.
  lemma RecordInTransactionFollowsIt(l: Ledger, id: RecordId, config: Config)
    requires l.store.transaction.Some? && id !in l.store.transaction.value && (config.sink || l.deferred == [])
    ensures var written := Apply(l, Append(id, false), config);
      var kept := Apply(Apply(written, CommitTransaction, config), Flush(false), config);
      && Apply(written, RollbackTransaction, config).store == Store(l.store.committed, None)
      && kept.store == Store(l.store.transaction.value + {id}, None) && kept.deferred == []
      && kept.stored + kept.dropped == l.stored + l.dropped + |l.deferred| + 1
      && TimesId(kept.emitted, id) == if config.sink then TimesId(l.emitted, id) + TimesId(l.deferred, id) + 1 else TimesId(l.emitted, id)
  {
    hide Filter, TimesId, Times;
    var committed := Apply(Apply(l, Append(id, false), config), CommitTransaction, config);
    TimesIdSnoc(l.deferred, Call(l.calls, id), id);
    SettlementSplits(committed.deferred, committed.store.committed, 0);
    TimesIdSettled(committed.deferred, committed.store.committed, id);
    TimesIdAppend(committed.emitted, Filter(HasId(committed.store.committed), committed.deferred), id);
  }

  // ----- exporting what is not committed ------------------------------------------------

  // What the worker's bookkeeping exports after a rollback is committed exactly when the
  // worker holds no record written into the transaction that was rolled back.
  lemma RollbackIsSafeIff(l: Ledger, config: Config)
    requires Inv(l, config) && l.inHand.Written? && Enabled(l, RollbackTransaction)
    ensures var next := Apply(Apply(l, RollbackTransaction, config), WorkerRecord, config);
      AllIn(next.emitted, next.store.committed) <==> !RollsBackHeldRecord(l, RollbackTransaction, config)
  {
    var next := Apply(Apply(l, RollbackTransaction, config), WorkerRecord, config);
    if config.sink { assert next.emitted[|l.emitted|] == l.inHand.call; }
  }

  // In that case the worker's very next step exports and counts a record that was never committed.
  lemma HeldRecordIsExportedUncommitted(l: Ledger, config: Config)
    requires Inv(l, config) && Enabled(l, RollbackTransaction) && RollsBackHeldRecord(l, RollbackTransaction, config)
    ensures var rolledBack := Apply(l, RollbackTransaction, config);
      var next := Apply(rolledBack, WorkerRecord, config);
      && next.emitted == l.emitted + [l.inHand.call]
      && l.inHand.call.id !in next.store.committed
      && next.stored == l.stored + 1
  {
  }

  // Such a state is reachable: the caller begins between the worker's take and its write.
  lemma HeldRecordIsReachable(id: RecordId, config: Config)
    requires config.capacity > 0 && config.sink
    ensures var l1 := Apply(INITIAL, Append(id, false), config);
      var l2 := Apply(l1, WorkerTake, config);
      var l3 := Apply(l2, BeginTransaction, config);
      var l4 := Apply(l3, WorkerWrite(false), config);
      Inv(l4, config) && RollsBackHeldRecord(l4, RollbackTransaction, config)
  {
    assert [Call(0, id)][1..] == [];
  }

  // A caller avoids it by beginning only when nothing is queued and the worker is idle, as
  // after a flush: inside a transaction nothing is queued, so the worker stays idle.
  ghost predicate BeginsIdle(l: Ledger, e: Event) {
    e.BeginTransaction? ==> l.queue == [] && l.inHand == Idle
  }

  lemma {:induction false} IdleBeginsKeepWorkerIdle(ledgers: seq<Ledger>, events: seq<Event>, config: Config, k: nat)
    requires Run(ledgers, events, config) && k < |ledgers|
    requires forall j :: 0 <= j < k ==> BeginsIdle(ledgers[j], events[j])
    ensures ledgers[k].store.transaction.Some? ==> ledgers[k].queue == [] && ledgers[k].inHand == Idle
  {
    hide Filter;
    if k > 0 { IdleBeginsKeepWorkerIdle(ledgers, events, config, k - 1); }
  }

  lemma IdleBeginsAreSafe(ledgers: seq<Ledger>, events: seq<Event>, config: Config, k: nat)
    requires Run(ledgers, events, config) && k < |ledgers|
    requires forall j :: 0 <= j < k ==> BeginsIdle(ledgers[j], events[j])
    ensures forall j :: 0 <= j < k ==> !RollsBackHeldRecord(ledgers[j], events[j], config)
    ensures Inv(ledgers[k], config)
  {
    hide Apply, Inv;
    forall j | 0 <= j < k ensures !RollsBackHeldRecord(ledgers[j], events[j], config) {
      IdleBeginsKeepWorkerIdle(ledgers, events, config, j);
    }
    EveryRunKeepsInv(ledgers, events, config, k);
  }

  // ----- exporting one id twice ------------------------------------------------------------

  // The record the worker has written and not yet recorded.
  function Held(l: Ledger): seq<Call> {
    if l.inHand.Written? then [l.inHand.call] else []
  }

  function TimesUnsettled(l: Ledger, id: RecordId): nat {
    TimesId(l.emitted, id) + TimesId(l.deferred, id) + TimesId(Held(l), id)
  }

  // Exported, deferred and held records together name each id once.
  ghost predicate OneExportPerId(l: Ledger) {
    forall id :: TimesUnsettled(l, id) <= 1
  }

  // The id a step writes to the store anew and means to export, if any.
  function WritesAnew(l: Ledger, e: Event, config: Config): Option<RecordId>
    requires Enabled(l, e)
  {
    match e
    case Append(id, appendRaises) =>
      if config.sink && l.store.transaction.Some? && !appendRaises && id !in Visible(l.store) then Some(id) else None
    case WorkerWrite(raises) =>
      if !raises && l.inHand.call.id !in Visible(l.store) then Some(l.inHand.call.id) else None
    case _ => None
  }

  // Writing an id whose earlier record was rolled back but is still deferred, held or exported.
  predicate ReusesUnsettledId(l: Ledger, e: Event, config: Config)
    requires Enabled(l, e)
  {
    var anew := WritesAnew(l, e, config);
    anew.Some? && (Occurs(l.emitted, anew.value) || Occurs(l.deferred, anew.value) || Occurs(Held(l), anew.value))
  }

  // A step adds one unsettled occurrence of the id it writes anew, and none of any other; a
  // flush and a worker without a sink drop some.
  lemma UnsettledAfter(l: Ledger, e: Event, config: Config, id: RecordId)
    requires Enabled(l, e)
    ensures TimesUnsettled(Apply(l, e, config), id) <= TimesUnsettled(l, id) + One(WritesAnew(l, e, config) == Some(id))
    ensures WritesAnew(l, e, config) == Some(id) ==> TimesUnsettled(Apply(l, e, config), id) == TimesUnsettled(l, id) + 1
  {
    hide Filter, TimesId;
    match e
    case Append(other, _) =>
      TimesIdSnoc(l.deferred, Call(l.calls, other), id);
    case WorkerTake => TimesIdSnoc([], l.queue[0], id);
    case WorkerWrite(_) => TimesIdSnoc([], l.inHand.call, id);
    case WorkerRecord =>
      TimesIdSnoc(l.deferred, l.inHand.call, id);
      TimesIdSnoc(l.emitted, l.inHand.call, id);
    case Flush(_) =>
      TimesIdSettled(l.deferred, l.store.committed, id);
      TimesIdAppend(l.emitted, Filter(HasId(l.store.committed), l.deferred), id);
      TimesIdSnoc([], Call(0, id), id);
    case SettleIds(ids) =>
      TimesIdSettled(l.deferred, ids, id);
      TimesIdAppend(l.emitted, Filter(HasId(ids), l.deferred), id);
    case _ =>
  }

  lemma UnsettledIff(l: Ledger, id: RecordId)
    ensures TimesUnsettled(l, id) > 0 <==> Occurs(l.emitted, id) || Occurs(l.deferred, id) || Occurs(Held(l), id)
  {
    OccursIff(l.emitted, id);
    OccursIff(l.deferred, id);
    OccursIff(Held(l), id);
  }

  // Any step keeps unsettled records unique per id exactly when it reuses no unsettled id.
  lemma StepKeepsOneExportIff(l: Ledger, e: Event, config: Config)
    requires OneExportPerId(l) && Enabled(l, e)
    ensures OneExportPerId(Apply(l, e, config)) <==> !ReusesUnsettledId(l, e, config)
  {
    hide Apply, TimesUnsettled;
    var anew := WritesAnew(l, e, config);
    forall id ensures TimesUnsettled(Apply(l, e, config), id) <= TimesUnsettled(l, id) + One(anew == Some(id))
              ensures anew == Some(id) ==> TimesUnsettled(Apply(l, e, config), id) == TimesUnsettled(l, id) + 1
    {
      UnsettledAfter(l, e, config, id);
    }
    if anew.Some? {
      UnsettledIff(l, anew.value);
      assert TimesUnsettled(Apply(l, e, config), anew.value) == TimesUnsettled(l, anew.value) + 1;
    }
    if !ReusesUnsettledId(l, e, config) {
      forall id ensures TimesUnsettled(Apply(l, e, config), id) <= 1 { assert TimesUnsettled(l, id) <= 1; }
    }
  }

  // As long as no uncommitted record was exported, only a deferred id can be reused.
  lemma OnlyDeferredIdsAreReused(l: Ledger, e: Event, config: Config)
    requires Inv(l, config) && Enabled(l, e) && ReusesUnsettledId(l, e, config)
    ensures Occurs(l.deferred, WritesAnew(l, e, config).value)
  {
    hide Filter, Times, Places, Counted;
  }

  lemma OneExportPerIdMeans(l: Ledger)
    requires OneExportPerId(l)
    ensures IdsDistinct(l.emitted)
  {
    hide TimesId;
    forall id ensures TimesId(l.emitted, id) <= 1 { assert TimesUnsettled(l, id) <= 1; }
    DistinctIff(l.emitted);
  }

  // Along every run that reuses no unsettled id, no id is exported twice.
  lemma {:induction false} EveryRunExportsIdsOnce(ledgers: seq<Ledger>, events: seq<Event>, config: Config, k: nat)
    requires Run(ledgers, events, config) && k < |ledgers|
    requires forall j :: 0 <= j < k ==> !ReusesUnsettledId(ledgers[j], events[j], config)
    ensures OneExportPerId(ledgers[k]) && IdsDistinct(ledgers[k].emitted)
  {
    hide Apply, Enabled, ReusesUnsettledId;
    if k > 0 {
      EveryRunExportsIdsOnce(ledgers, events, config, k - 1);
      StepKeepsOneExportIff(ledgers[k - 1], events[k - 1], config);
    }
    OneExportPerIdMeans(ledgers[k]);
  }

  // So the records counted as stored are no more than those that are.
  lemma StoredAreCommitted(ledgers: seq<Ledger>, events: seq<Event>, config: Config, k: nat)
    requires Run(ledgers, events, config) && k < |ledgers| && config.sink
    requires forall j :: 0 <= j < k ==>
      !ReusesUnsettledId(ledgers[j], events[j], config) && !RollsBackHeldRecord(ledgers[j], events[j], config)
    ensures ledgers[k].stored <= |ledgers[k].store.committed|
  {
    hide Apply, Enabled, ReusesUnsettledId;
    EveryRunExportsIdsOnce(ledgers, events, config, k);
    EveryRunKeepsInv(ledgers, events, config, k);
    DistinctFit(ledgers[k].emitted, ledgers[k].store.committed);
  }

  // A step, then a commit where a transaction is open, then what the worker still has to
  // record, then a flush.
  function Settled(l: Ledger, e: Event, config: Config): Ledger
    requires Enabled(l, e)
  {
    var written := Apply(l, e, config);
    var committed := if written.store.transaction.Some? then Apply(written, CommitTransaction, config) else written;
    var recorded := if committed.inHand.Written? then Apply(committed, WorkerRecord, config) else committed;
    Apply(recorded, Flush(false), config)
  }

  // A write that reuses an unsettled id, and is then committed and flushed, is exported twice;
  // any other step leaves exports unique per id.
  lemma CommittedWriteIsExportedOnceIff(l: Ledger, e: Event, config: Config)
    requires config.sink && Inv(l, config) && OneExportPerId(l) && Enabled(l, e)
    ensures IdsDistinct(Settled(l, e, config).emitted) <==> !ReusesUnsettledId(l, e, config)
  {
    hide Inv, TimesUnsettled, TimesId, OneExportPerId;
    var written := Apply(l, e, config);
    var committed := if written.store.transaction.Some? then Apply(written, CommitTransaction, config) else written;
    var recorded := if committed.inHand.Written? then Apply(committed, WorkerRecord, config) else committed;
    if ReusesUnsettledId(l, e, config) {
      var id := WritesAnew(l, e, config).value;
      UnsettledIff(l, id);
      UnsettledAfter(l, e, config, id);
      CommitAndRecordKeepUnsettled(written, config, id);
      FlushExportsPending(recorded, config, id);
      DistinctIff(Settled(l, e, config).emitted);
    } else {
      StepKeepsOneExportIff(l, e, config);
      if written.store.transaction.Some? { StepKeepsOneExportIff(written, CommitTransaction, config); }
      if committed.inHand.Written? { StepKeepsOneExportIff(committed, WorkerRecord, config); }
      StepKeepsOneExportIff(recorded, Flush(false), config);
      OneExportPerIdMeans(Settled(l, e, config));
    }
  }

  lemma CommitAndRecordKeepUnsettled(l: Ledger, config: Config, id: RecordId)
    requires config.sink
    ensures var committed := if l.store.transaction.Some? then Apply(l, CommitTransaction, config) else l;
      var recorded := if committed.inHand.Written? then Apply(committed, WorkerRecord, config) else committed;
      && TimesUnsettled(recorded, id) == TimesUnsettled(l, id)
      && Held(recorded) == []
      && recorded.store == Store(Visible(l.store), None)
  {
    hide TimesId;
    if l.inHand.Written? { TimesIdSnoc(l.emitted, l.inHand.call, id); } else { TimesIdSnoc([], Call(0, id), id); }
  }

  lemma FlushExportsPending(l: Ledger, config: Config, id: RecordId)
    requires config.sink && l.store.transaction == None && id in l.store.committed && Held(l) == []
    ensures TimesId(Apply(l, Flush(false), config).emitted, id) == TimesUnsettled(l, id)
  {
    hide Filter;
    TimesIdAppend(l.emitted, Filter(HasId(l.store.committed), l.deferred), id);
    TimesIdSettled(l.deferred, l.store.committed, id);
  }

  // A record written into a transaction that was then rolled back: deferred, and stored nowhere.
  function Orphaned(id: RecordId): Ledger {
    Ledger(Store({}, None), [], Idle, [Call(0, id)], [], 0, 0, 1, 0, 0)
  }

  lemma RolledBackRecordStaysDeferred(id: RecordId, config: Config)
    requires config.sink
    ensures var written := Apply(Apply(INITIAL, BeginTransaction, config), Append(id, false), config);
      && written.store.transaction.Some? && !RollsBackHeldRecord(written, RollbackTransaction, config)
      && Apply(written, RollbackTransaction, config) == Orphaned(id)
  {
  }

  // From there, recording the id again and flushing exports one stored record twice, with no
  // rollback under a held record.
  lemma RolledBackRecordIsExportedTwice(id: RecordId, config: Config)
    requires config.capacity > 0 && config.sink
    ensures var l1 := Apply(Orphaned(id), Append(id, false), config);
      var l2 := Apply(l1, WorkerTake, config);
      var l3 := Apply(l2, WorkerWrite(false), config);
      var l4 := Apply(l3, WorkerRecord, config);
      var l5 := Apply(l4, Flush(false), config);
      && ReusesUnsettledId(l2, WorkerWrite(false), config)
      && l5.store.committed == {id} && l5.emitted == [Call(1, id), Call(0, id)] && l5.stored == 2
  {
    hide Filter;
    var pending := [Call(0, id)];
    assert Occurs(pending, id) by { assert pending[0] in pending; }
    FilterAll(HasId({id}), pending);
    assert [] + [Call(1, id)] == [Call(1, id)] && [Call(1, id)][1..] == [];
    var l2 := Apply(Apply(Orphaned(id), Append(id, false), config), WorkerTake, config);
    assert l2 == Orphaned(id).(inHand := Taken(Call(1, id)), calls := 2);
  }

  // ----- the store object -------------------------------------------------------------

  class NonBlockingLedgerStore {
    const capacity: nat
    const hasSink: bool
    var store: Store
    var queue: seq<Call>
    var inHand: InHand
    var deferred: seq<Call>
    var emitted: seq<Call>
    var stored: nat
    var dropped: nat
    var calls: nat
    var appendFailures: nat
    var lookupFailures: nat

    function View(): Ledger
      reads this
    {
      Ledger(store, queue, inHand, deferred, emitted, stored, dropped, calls, appendFailures, lookupFailures)
    }

    function Settings(): Config {
      Config(capacity, hasSink)
    }

    constructor (capacity: nat, hasSink: bool)
      requires capacity >= 1
      ensures View() == INITIAL && Settings() == Config(capacity, hasSink)
    {
      this.capacity, this.hasSink := capacity, hasSink;
      store, queue, inHand, deferred, emitted := Store({}, None), [], Idle, [], [];
      stored, dropped, calls, appendFailures, lookupFailures := 0, 0, 0, 0, 0;
    }

    // Inside the caller's transaction a new id is written at once, with its export deferred
    // where there is a sink and counted as stored where there is none; a known id or a failing
    // append leaves the store alone. Outside one the call is queued while there is room.
    method Append(id: RecordId, appendRaises: bool) returns (accepted: bool)
      modifies this`store, this`queue, this`deferred, this`stored, this`dropped, this`calls, this`appendFailures
      ensures View() == Apply(old(View()), Event.Append(id, appendRaises), Settings())
      ensures calls == old(calls) + 1
      ensures accepted <==>
        match old(store).transaction case Some(ids) => !appendRaises && id !in ids case None => |old(queue)| < capacity
      ensures appendFailures == old(appendFailures) + (if old(store).transaction.Some? && appendRaises then 1 else 0)
      ensures dropped + appendFailures == old(dropped) + old(appendFailures) + (if accepted then 0 else 1)
      ensures queue == old(queue) + (if accepted && old(store).transaction == None then [Call(old(calls), id)] else [])
      ensures deferred == old(deferred) + (if accepted && old(store).transaction.Some? && hasSink then [Call(old(calls), id)] else [])
      ensures stored == old(stored) + (if accepted && old(store).transaction.Some? && !hasSink then 1 else 0)
      ensures store == match old(store).transaction
        case Some(ids) => if accepted then Store(old(store).committed, Some(ids + {id})) else old(store)
        case None => old(store)
    {
      var call := Call(calls, id);
      calls := calls + 1;
      if store.transaction.Some? {
        if appendRaises {
          appendFailures := appendFailures + 1;
          return false;
        }
        if id in Visible(store) {
          dropped := dropped + 1;
          return false;
        }
        store := AppendId(store, id);
        if hasSink {
          deferred := deferred + [call];
        } else {
          stored := stored + 1;
        }
        return true;
      }
      if |queue| >= capacity {
        dropped := dropped + 1;
        return false;
      }
      queue := queue + [call];
      return true;
    }

    // The three steps of one turn of the background worker.
    method TakeNext()
      requires inHand == Idle && queue != []
      modifies this`queue, this`inHand
      ensures View() == Apply(old(View()), WorkerTake, Settings())
      ensures inHand.Taken? && [inHand.call] + queue == old(queue)
    {
      inHand, queue := Taken(queue[0]), queue[1..];
    }

    method WriteTaken(raises: bool)
      requires inHand.Taken?
      modifies this`store, this`inHand, this`dropped, this`appendFailures
      ensures View() == Apply(old(View()), WorkerWrite(raises), Settings())
      ensures var id := old(inHand).call.id;
        var known := id in (if old(store).transaction.Some? then old(store).transaction.value else old(store).committed);
        if raises || known then
          && store == old(store) && inHand == Idle
          && appendFailures == old(appendFailures) + (if raises then 1 else 0)
          && dropped == old(dropped) + (if raises then 0 else 1)
        else
          && inHand == Written(old(inHand).call) && appendFailures == old(appendFailures) && dropped == old(dropped)
          && store == match old(store).transaction
               case Some(ids) => Store(old(store).committed, Some(ids + {id}))
               case None => Store(old(store).committed + {id}, None)
    {
      var call := inHand.call;
      if raises {
        inHand, appendFailures := Idle, appendFailures + 1;
      } else if call.id in Visible(store) {
        inHand, dropped := Idle, dropped + 1;
      } else {
        store, inHand := AppendId(store, call.id), Written(call);
      }
    }

    method RecordWritten()
      requires inHand.Written?
      modifies this`inHand, this`deferred, this`emitted, this`stored
      ensures View() == Apply(old(View()), WorkerRecord, Settings())
      ensures inHand == Idle
      ensures deferred == old(deferred) + (if hasSink && store.transaction.Some? then [old(inHand).call] else [])
      ensures emitted == old(emitted) + (if hasSink && store.transaction == None then [old(inHand).call] else [])
      ensures stored == old(stored) + (if hasSink && store.transaction.Some? then 0 else 1)
    {
      var call := inHand.call;
      inHand := Idle;
      if hasSink && store.transaction.Some? {
        deferred := deferred + [call];
        return;
      }
      stored := stored + 1;
      if hasSink { emitted := emitted + [call]; }
    }

    // Outside a transaction the deferred records of committed ids are exported in order and
    // counted as stored, the others as dropped; a failing lookup keeps them all deferred.
    method Flush(lookupRaises: bool)
      modifies this`deferred, this`emitted, this`stored, this`dropped, this`lookupFailures
      ensures View() == Apply(old(View()), Event.Flush(lookupRaises), Settings())
      ensures store.transaction.Some? || old(deferred) == [] ==> View() == old(View())
      ensures store.transaction == None && old(deferred) != [] && lookupRaises ==>
        View() == old(View()).(lookupFailures := old(lookupFailures) + 1)
      ensures store.transaction == None && !lookupRaises ==> deferred == [] && lookupFailures == old(lookupFailures)
      ensures store.transaction == None && !lookupRaises && hasSink ==>
        emitted == old(emitted) + Filter(HasId(store.committed), old(deferred))
      ensures !hasSink ==> emitted == old(emitted)
      ensures store.transaction == None && !lookupRaises ==> stored == old(stored) + |Filter(HasId(store.committed), old(deferred))|
      ensures store.transaction == None && !lookupRaises ==> dropped == old(dropped) + |Filter(LacksId(store.committed), old(deferred))|
    {
      hide Filter;
      NothingFiltered(HasId(store.committed));
      NothingFiltered(LacksId(store.committed));
      if store.transaction.Some? { return; }
      var pending := deferred;
      deferred := [];
      if pending == [] { return; }
      if lookupRaises {
        deferred, lookupFailures := pending + deferred, lookupFailures + 1;
        return;
      }
      ghost var keeps, lacks := HasId(store.committed), LacksId(store.committed);
      for i := 0 to |pending|
        invariant View() == old(View()).(deferred := [], emitted := emitted, stored := stored, dropped := dropped)
        invariant emitted == if hasSink then old(emitted) + Filter(keeps, pending[..i]) else old(emitted)
        invariant stored == old(stored) + |Filter(keeps, pending[..i])|
        invariant dropped == old(dropped) + |Filter(lacks, pending[..i])|
      {
        assert pending[..i + 1] == pending[..i] + [pending[i]];
        FilterSnoc(keeps, pending[..i], pending[i]);
        FilterSnoc(lacks, pending[..i], pending[i]);
        if pending[i].id in store.committed {
          stored := stored + 1;
          if hasSink { emitted := emitted + [pending[i]]; }
        } else {
          dropped := dropped + 1;
        }
      }
      assert pending[..|pending|] == pending;
    }

    // settle_usage_record_ids: releases confirmed ids and leaves the rest deferred.
    method SettleUsageRecordIds(ids: set<RecordId>)
      requires ids <= store.committed
      modifies this`deferred, this`emitted, this`stored
      ensures View() == Apply(old(View()), SettleIds(ids), Settings())
      ensures store.transaction.Some? ==> View() == old(View())
      ensures store.transaction == None ==> deferred == Filter(LacksId(ids), old(deferred))
      ensures store.transaction == None ==> stored == old(stored) + |Filter(HasId(ids), old(deferred))|
      ensures store.transaction == None && hasSink ==> emitted == old(emitted) + Filter(HasId(ids), old(deferred))
      ensures !hasSink ==> emitted == old(emitted)
    {
      hide Filter;
      if ids == {} {
        FilterNone(HasId(ids), deferred);
        FilterAll(LacksId(ids), deferred);
        return;
      }
      if store.transaction.Some? { return; }
      var settled := Filter(HasId(ids), deferred);
      deferred := Filter(LacksId(ids), deferred);
      for i := 0 to |settled|
        invariant View() == old(View()).(deferred := deferred, emitted := emitted, stored := stored)
        invariant deferred == Filter(LacksId(ids), old(deferred))
        invariant emitted == if hasSink then old(emitted) + settled[..i] else old(emitted)
        invariant stored == old(stored) + i
      {
        assert settled[..i + 1] == settled[..i] + [settled[i]];
        stored := stored + 1;
        if hasSink { emitted := emitted + [settled[i]]; }
      }
      assert settled[..|settled|] == settled;
    }
  }
}
