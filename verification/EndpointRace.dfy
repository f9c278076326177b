// Racing equivalent provider endpoints (contextual_orchestrator/endpoint_race.py, race_first_valid):
// one worker thread per endpoint, one coordinator, every interleaving of their atomic steps.

module EndpointRace {
  import opened Prelude

  type Response = string

  // What the caller supplies: how many endpoints, the validator, and which endpoints can
  // really be asked to cancel (the contract, the attempt and a callback all have to allow it).
  datatype Setup = Setup(count: nat, valid: Response -> bool, cancellable: nat -> bool)

  datatype Future =
    | Pending
    | InFlight
    | Cancelled                  // cancel() won; the worker has not noticed yet
    | CancelledAndNotified
    | Value(response: Response)
    | Failure

  datatype Worker =
    | Ready
    | Calling
    | Observing(outcome: Option<Response>)   // None: the call raised or validation refused it
    | Gone

  datatype LoserOutcome = QueuedCancelled | Completed | Failed | CancellationRequested | SafeDrain

  // cancel_loser() looks at the future, then tries to cancel it, then asks the transport.
  datatype Stage = Look | TryCancel | AskTransport

  datatype Coordinator =
    | AwaitingBatch(pending: set<nat>)
    | CancellingLosers(winner: nat, batch: set<nat>, next: nat, stage: Stage)
    | Returned(winner: nat, batch: set<nat>)
    | CancellingPending(todo: set<nat>, current: Option<nat>, stage: Stage)
    | TimedOut
    | AllFailed

  datatype Race = Race(
    futures: seq<Future>, workers: seq<Worker>, coordinator: Coordinator,
    outcomes: map<nat, LoserOutcome>,
    called: set<nat>,      // history: endpoints whose provider was called
    observed: set<nat>)    // history: endpoints whose valid response passed the observer

  datatype Event =
    | Begin(i: nat)
    | CallReturns(i: nat, response: Response)
    | CallRaises(i: nat)
    | Settle(i: nat, observerOk: bool)
    | Collect(done: set<nat>)
    | Deadline
    | Choose(i: nat)                 // next future the finally clause cancels
    | CancelStep(transportOk: bool)  // one step of cancel_loser()
    | SkipWinner                     // the loser loop passes over the winner
    | Finish

  function Below(n: nat): (r: set<nat>)
    ensures forall i: nat :: i in r <==> i < n
  {
    if n == 0 then {} else Below(n - 1) + {n - 1}
  }

  function Everyone(setup: Setup): set<nat> { Below(setup.count) }

  function Initial(setup: Setup): Race {
    Race(seq(setup.count, _ => Pending), seq(setup.count, _ => Ready), AwaitingBatch(Everyone(setup)), map[], {}, {})
  }

  predicate Settled(f: Future) { f.Value? || f.Failure? }

  predicate IsCancelled(f: Future) { f.Cancelled? || f.CancelledAndNotified? }

  // The future the coordinator's cancel_loser() call is working on.
  function Target(race: Race, setup: Setup): Option<nat> {
    match race.coordinator
    case CancellingLosers(_, _, next, _) => if next < setup.count then Some(next) else None
    case CancellingPending(_, current, _) => current
    case _ => None
  }

  // The lowest-declared endpoint of a batch that holds a value.
  function Winner(race: Race, done: set<nat>, from: nat, setup: Setup): (w: Option<nat>)
    requires |race.futures| == setup.count && from <= setup.count
    ensures w.Some? ==> from <= w.value < setup.count && w.value in done && race.futures[w.value].Value?
    ensures w.Some? ==> forall j :: from <= j < w.value && j in done ==> !race.futures[j].Value?
    ensures w.None? ==> forall j :: from <= j < setup.count && j in done ==> !race.futures[j].Value?
    decreases setup.count - from
  {
    if from == setup.count then None
    else if from in done && race.futures[from].Value? then Some(from)
    else Winner(race, done, from + 1, setup)
  }

  ghost predicate WellFormed(race: Race, setup: Setup) {
    |race.futures| == setup.count && |race.workers| == setup.count
  }

  ghost predicate Enabled(race: Race, e: Event, setup: Setup) {
    && WellFormed(race, setup)
    && match e
       case Begin(i) => i < setup.count && race.workers[i].Ready?
       case CallReturns(i, _) => i < setup.count && race.workers[i].Calling?
       case CallRaises(i) => i < setup.count && race.workers[i].Calling?
       case Settle(i, _) => i < setup.count && race.workers[i].Observing?
       case Collect(done) =>
         && race.coordinator.AwaitingBatch? && done != {} && done <= race.coordinator.pending
         && forall i :: i in done ==> i < setup.count && Settled(race.futures[i])
       case Deadline => race.coordinator.AwaitingBatch?
       case Choose(i) =>
         race.coordinator.CancellingPending? && race.coordinator.current == None && i in race.coordinator.todo
       case CancelStep(_) =>
         && Target(race, setup).Some? && Target(race, setup).value < setup.count
         && (race.coordinator.CancellingLosers? ==> Target(race, setup).value != race.coordinator.winner)
       case SkipWinner =>
         race.coordinator.CancellingLosers? && race.coordinator.next == race.coordinator.winner
       case Finish =>
         || (race.coordinator.CancellingLosers? && race.coordinator.next == setup.count)
         || (race.coordinator.CancellingPending? && race.coordinator.todo == {} && race.coordinator.current == None)
  }

  ghost function Apply(race: Race, e: Event, setup: Setup): Race
    requires Enabled(race, e, setup)
  {
    match e
    case Begin(i) =>
      // set_running_or_notify_cancel(): a cancelled future never reaches the provider.
      if race.futures[i].Cancelled?
      then race.(futures := race.futures[i := CancelledAndNotified], workers := race.workers[i := Gone])
      else race.(futures := race.futures[i := InFlight], workers := race.workers[i := Calling], called := race.called + {i})
    case CallReturns(i, response) =>
      race.(workers := race.workers[i := Observing(if setup.valid(response) then Some(response) else None)])
    case CallRaises(i) => race.(workers := race.workers[i := Observing(None)])
    case Settle(i, observerOk) =>
      var outcome := race.workers[i].outcome;
      if outcome.Some? && observerOk
      then race.(futures := race.futures[i := Value(outcome.value)], workers := race.workers[i := Gone],
                 observed := race.observed + {i})
      else race.(futures := race.futures[i := Failure], workers := race.workers[i := Gone])
    case Collect(done) =>
      var pending := race.coordinator.pending - done;
      (match Winner(race, done, 0, setup)
       case Some(w) => race.(coordinator := CancellingLosers(w, done, 0, Look))
       case None => race.(coordinator := if pending == {} then AllFailed else AwaitingBatch(pending)))
    case Deadline => race.(coordinator := CancellingPending(race.coordinator.pending, None, Look))
    case Choose(i) =>
      race.(coordinator := CancellingPending(race.coordinator.todo - {i}, Some(i), Look))
    case CancelStep(transportOk) => CancelLoser(race, transportOk, setup)
    case SkipWinner =>
      var c := race.coordinator;
      race.(coordinator := CancellingLosers(c.winner, c.batch, c.next + 1, Look))
    case Finish =>
      if race.coordinator.CancellingLosers?
      then race.(coordinator := Returned(race.coordinator.winner, race.coordinator.batch))
      else race.(coordinator := TimedOut)
  }

  ghost function StageOf(c: Coordinator): Stage {
    match c
    case CancellingLosers(_, _, _, stage) => stage
    case CancellingPending(_, _, stage) => stage
    case _ => Look
  }

  ghost function AtStage(c: Coordinator, stage: Stage): Coordinator {
    match c
    case CancellingLosers(winner, batch, next, _) => CancellingLosers(winner, batch, next, stage)
    case CancellingPending(todo, current, _) => CancellingPending(todo, current, stage)
    case _ => c
  }

  // Records one loser's outcome and moves on.
  ghost function Record(race: Race, i: nat, outcome: LoserOutcome): Race {
    race.(outcomes := race.outcomes[i := outcome],
          coordinator := match race.coordinator
                         case CancellingLosers(winner, batch, next, _) => CancellingLosers(winner, batch, next + 1, Look)
                         case CancellingPending(todo, _, _) => CancellingPending(todo, None, Look)
                         case c => c)
  }

  ghost function CancelLoser(race: Race, transportOk: bool, setup: Setup): Race
    requires Enabled(race, CancelStep(transportOk), setup)
  {
    var i := Target(race, setup).value;
    match StageOf(race.coordinator)
    case Look =>
      if IsCancelled(race.futures[i]) then Record(race, i, QueuedCancelled)
      else if race.futures[i].Failure? then Record(race, i, Failed)
      else if race.futures[i].Value? then Record(race, i, Completed)
      else race.(coordinator := AtStage(race.coordinator, TryCancel))
    case TryCancel =>
      if race.futures[i].Pending? then Record(race.(futures := race.futures[i := Cancelled]), i, QueuedCancelled)
      else if IsCancelled(race.futures[i]) then Record(race, i, QueuedCancelled)
      else race.(coordinator := AtStage(race.coordinator, AskTransport))
    case AskTransport =>
      Record(race, i, if setup.cancellable(i) && transportOk then CancellationRequested else SafeDrain)
  }

  // ----- the invariant ------------------------------------------------------------------

  ghost predicate EndpointOk(race: Race, i: nat, setup: Setup)
    requires WellFormed(race, setup) && i < setup.count
  {
    var f, w := race.futures[i], race.workers[i];
    && (w.Ready? <==> f.Pending? || f.Cancelled?)
    && (w.Calling? || w.Observing? <==> f.InFlight?)
    && (w.Observing? && w.outcome.Some? ==> setup.valid(w.outcome.value))
    && (f.Value? ==> setup.valid(f.response))
    && (f.Value? <==> i in race.observed)
    && (i in race.called <==> f.InFlight? || Settled(f))
    // Only an endpoint reported queued_cancelled is ever cancelled, and the other way round.
    && (IsCancelled(f) <==> i in race.outcomes && race.outcomes[i] == QueuedCancelled)
    && (i in race.outcomes && race.outcomes[i] == Completed ==> f.Value?)
    && (i in race.outcomes && race.outcomes[i] == Failed ==> f.Failure?)
    && (i in race.outcomes && race.outcomes[i] == CancellationRequested ==> setup.cancellable(i))
  }

  ghost predicate WinnerOk(race: Race, winner: nat, batch: set<nat>, setup: Setup)
    requires WellFormed(race, setup)
  {
    && winner < setup.count && winner in batch && race.futures[winner].Value?
    && forall j: nat :: j in batch && j < winner ==> race.futures[j].Failure?
  }

  ghost predicate CoordinatorOk(race: Race, setup: Setup)
    requires WellFormed(race, setup)
  {
    match race.coordinator
    case AwaitingBatch(pending) =>
      && pending <= Everyone(setup) && pending != {} && race.outcomes == map[]
      && forall i: nat :: i < setup.count && i !in pending ==> race.futures[i].Failure?
    case CancellingLosers(winner, batch, next, _) =>
      && WinnerOk(race, winner, batch, setup) && next <= setup.count
      && race.outcomes.Keys == Below(next) - {winner}
    case Returned(winner, batch) =>
      WinnerOk(race, winner, batch, setup) && race.outcomes.Keys == Everyone(setup) - {winner}
    case CancellingPending(todo, current, _) =>
      && todo <= Everyone(setup) && todo !! race.outcomes.Keys
      && (current.Some? ==> current.value < setup.count && current.value !in todo && current.value !in race.outcomes)
      && race.outcomes.Keys <= Everyone(setup)
      && forall i: nat :: i < setup.count && i !in todo && i !in race.outcomes && current != Some(i) ==> race.futures[i].Failure?
    case TimedOut =>
      && race.outcomes.Keys <= Everyone(setup)
      && forall i: nat :: i < setup.count && i !in race.outcomes ==> race.futures[i].Failure?
    case AllFailed =>
      race.outcomes == map[] && forall i: nat :: i < setup.count ==> race.futures[i].Failure?
  }

  ghost predicate Inv(race: Race, setup: Setup) {
    && WellFormed(race, setup)
    && (forall i :: 0 <= i < setup.count ==> EndpointOk(race, i, setup))
    && CoordinatorOk(race, setup)
  }

  // A settled or cancelled future only ever moves from cancelled to cancelled-and-notified.
  ghost predicate Stable(before: Future, after: Future) {
    && (Settled(before) ==> after == before)
    && (IsCancelled(before) ==> IsCancelled(after))
  }

  lemma StepIsStable(race: Race, e: Event, setup: Setup, i: nat)
    requires Inv(race, setup) && Enabled(race, e, setup) && i < setup.count
    ensures WellFormed(Apply(race, e, setup), setup)
    ensures Stable(race.futures[i], Apply(race, e, setup).futures[i])
    ensures race.called <= Apply(race, e, setup).called
    ensures race.coordinator.Returned? ==> Apply(race, e, setup).coordinator == race.coordinator
    ensures i in race.outcomes ==>
      i in Apply(race, e, setup).outcomes && Apply(race, e, setup).outcomes[i] == race.outcomes[i]
  {
    assert EndpointOk(race, i, setup);
    if e.CancelStep? { assert Target(race, setup).value !in race.outcomes; }
  }

  lemma WorkerStepKeepsEndpoint(race: Race, e: Event, setup: Setup, i: nat)
    requires Inv(race, setup) && Enabled(race, e, setup) && i < setup.count
    requires e.Begin? || e.CallReturns? || e.CallRaises? || e.Settle?
    ensures WellFormed(Apply(race, e, setup), setup)
    ensures EndpointOk(Apply(race, e, setup), i, setup)
  {
    assert EndpointOk(race, i, setup);
  }

  lemma CancelStepKeepsEndpoint(race: Race, transportOk: bool, setup: Setup, i: nat)
    requires Inv(race, setup) && Enabled(race, CancelStep(transportOk), setup) && i < setup.count
    ensures WellFormed(CancelLoser(race, transportOk, setup), setup)
    ensures EndpointOk(CancelLoser(race, transportOk, setup), i, setup)
  {
    assert EndpointOk(race, i, setup);
    assert Target(race, setup).value !in race.outcomes;
  }

  lemma StepKeepsEndpoint(race: Race, e: Event, setup: Setup, i: nat)
    requires Inv(race, setup) && Enabled(race, e, setup) && i < setup.count
    ensures WellFormed(Apply(race, e, setup), setup)
    ensures EndpointOk(Apply(race, e, setup), i, setup)
  {
    if e.Begin? || e.CallReturns? || e.CallRaises? || e.Settle? {
      WorkerStepKeepsEndpoint(race, e, setup, i);
    } else if e.CancelStep? {
      CancelStepKeepsEndpoint(race, e.transportOk, setup, i);
    } else {
      assert EndpointOk(race, i, setup);
    }
  }

  // What the coordinator relies on survives any change of the futures that is stable.
  lemma StableFuturesKeepCoordinator(race: Race, next: Race, setup: Setup)
    requires Inv(race, setup) && WellFormed(next, setup)
    requires next.coordinator == race.coordinator && next.outcomes == race.outcomes
    requires forall i: nat :: i < setup.count ==> Stable(race.futures[i], next.futures[i])
    ensures CoordinatorOk(next, setup)
  {
  }

  lemma CollectKeepsCoordinator(race: Race, done: set<nat>, setup: Setup)
    requires Inv(race, setup) && Enabled(race, Collect(done), setup)
    ensures WellFormed(Apply(race, Collect(done), setup), setup)
    ensures CoordinatorOk(Apply(race, Collect(done), setup), setup)
  {
    var w := Winner(race, done, 0, setup);
    if w.Some? {
      assert Below(0) - {w.value} == {};
    } else {
      var pending := race.coordinator.pending - done;
      forall i: nat | i < setup.count && i !in pending ensures race.futures[i].Failure? {
        assert i in done ==> Settled(race.futures[i]);
      }
    }
  }

  lemma RecordKeepsCoordinator(race: Race, i: nat, outcome: LoserOutcome, setup: Setup)
    requires WellFormed(race, setup) && CoordinatorOk(race, setup)
    requires Target(race, setup) == Some(i) && i < setup.count
    requires race.coordinator.CancellingLosers? ==> i != race.coordinator.winner
    ensures CoordinatorOk(Record(race, i, outcome), setup)
  {
    var next := Record(race, i, outcome);
    assert next.outcomes.Keys == race.outcomes.Keys + {i};
    if race.coordinator.CancellingLosers? {
      assert Below(i + 1) - {race.coordinator.winner} == Below(i) - {race.coordinator.winner} + {i};
    }
  }

  lemma CancelStepKeepsCoordinator(race: Race, transportOk: bool, setup: Setup)
    requires Inv(race, setup) && Enabled(race, CancelStep(transportOk), setup)
    ensures WellFormed(CancelLoser(race, transportOk, setup), setup)
    ensures CoordinatorOk(CancelLoser(race, transportOk, setup), setup)
  {
    hide EndpointOk, Inv, CoordinatorOk, Stable;
    var i := Target(race, setup).value;
    var next := CancelLoser(race, transportOk, setup);
    InvParts(race, setup);
    if next == race.(coordinator := AtStage(race.coordinator, TryCancel)) {
      StageMoveKeepsCoordinator(race, TryCancel, setup);
    } else if next == race.(coordinator := AtStage(race.coordinator, AskTransport)) {
      StageMoveKeepsCoordinator(race, AskTransport, setup);
    } else if next.futures == race.futures {
      RecordKeepsCoordinator(race, i, next.outcomes[i], setup);
    } else {
      var touched := race.(futures := race.futures[i := Cancelled]);
      OneCancelIsStable(race, i);
      StableFuturesKeepCoordinator(race, touched, setup);
      RecordKeepsCoordinator(touched, i, QueuedCancelled, setup);
    }
  }

  lemma OneCancelIsStable(race: Race, i: nat)
    requires i < |race.futures| && race.futures[i].Pending?
    ensures forall j: nat :: j < |race.futures| ==> Stable(race.futures[j], race.futures[i := Cancelled][j])
  {
  }

  lemma StageMoveKeepsCoordinator(race: Race, stage: Stage, setup: Setup)
    requires WellFormed(race, setup) && CoordinatorOk(race, setup)
    ensures CoordinatorOk(race.(coordinator := AtStage(race.coordinator, stage)), setup)
  {
  }

  lemma InvParts(race: Race, setup: Setup)
    requires Inv(race, setup)
    ensures WellFormed(race, setup) && CoordinatorOk(race, setup)
  {
  }

  lemma StepKeepsCoordinator(race: Race, e: Event, setup: Setup)
    requires Inv(race, setup) && Enabled(race, e, setup)
    ensures WellFormed(Apply(race, e, setup), setup)
    ensures CoordinatorOk(Apply(race, e, setup), setup)
  {
    hide Stable, EndpointOk, Winner;
    match e
    case Collect(done) => CollectKeepsCoordinator(race, done, setup);
    case CancelStep(transportOk) => CancelStepKeepsCoordinator(race, transportOk, setup);
    case Deadline =>
    case Choose(i) =>
    case SkipWinner =>
      var winner := race.coordinator.winner;
      assert Below(winner + 1) - {winner} == Below(winner) - {winner};
    case Finish =>
    case _ =>
      forall i: nat | i < setup.count ensures Stable(race.futures[i], Apply(race, e, setup).futures[i]) {
        StepIsStable(race, e, setup, i);
      }
      StableFuturesKeepCoordinator(race, Apply(race, e, setup), setup);
  }

  lemma StepKeepsInv(race: Race, e: Event, setup: Setup)
    requires Inv(race, setup) && Enabled(race, e, setup)
    ensures Inv(Apply(race, e, setup), setup)
  {
    StepKeepsCoordinator(race, e, setup);
    forall i | 0 <= i < setup.count ensures EndpointOk(Apply(race, e, setup), i, setup) {
      StepKeepsEndpoint(race, e, setup, i);
    }
  }

  // ----- whole runs ---------------------------------------------------------------------

  lemma InitialInv(setup: Setup)
    requires setup.count >= 2
    ensures Inv(Initial(setup), setup)
  {
    assert 0 in Everyone(setup);
  }

  ghost predicate Run(races: seq<Race>, events: seq<Event>, setup: Setup) {
    && setup.count >= 2
    && |races| == |events| + 1
    && races[0] == Initial(setup)
    && forall k :: 0 <= k < |events| ==> Enabled(races[k], events[k], setup) && races[k + 1] == Apply(races[k], events[k], setup)
  }

  lemma {:induction false} EveryRunKeepsInv(races: seq<Race>, events: seq<Event>, setup: Setup, k: nat)
    requires Run(races, events, setup) && k < |races|
    ensures Inv(races[k], setup)
  {
    if k == 0 {
      InitialInv(setup);
    } else {
      EveryRunKeepsInv(races, events, setup, k - 1);
      StepKeepsInv(races[k - 1], events[k - 1], setup);
    }
  }

  // Between any two moments of a run a settled future keeps its value, a cancelled one stays
  // cancelled, and a recorded outcome stays as recorded.
  lemma {:induction false} FuturesSettleOnce(races: seq<Race>, events: seq<Event>, setup: Setup, i: nat, j: nat, k: nat)
    requires Run(races, events, setup) && j <= k < |races| && i < setup.count
    ensures WellFormed(races[j], setup) && WellFormed(races[k], setup)
    ensures Stable(races[j].futures[i], races[k].futures[i])
    ensures races[j].called <= races[k].called
    ensures races[j].coordinator.Returned? ==> races[k].coordinator == races[j].coordinator
    ensures i in races[j].outcomes ==> i in races[k].outcomes && races[k].outcomes[i] == races[j].outcomes[i]
  {
    EveryRunKeepsInv(races, events, setup, k);
    if j < k {
      EveryRunKeepsInv(races, events, setup, k - 1);
      FuturesSettleOnce(races, events, setup, i, j, k - 1);
      StepIsStable(races[k - 1], events[k - 1], setup, i);
    }
  }

  // The provider of an endpoint reported queued_cancelled is not called before the report,
  // after it, or after the race has returned.
  lemma QueuedCancelledIsNeverCalled(races: seq<Race>, events: seq<Event>, setup: Setup, i: nat, j: nat, k: nat)
    requires Run(races, events, setup) && j < |races| && k < |races| && i < setup.count
    requires i in races[j].outcomes && races[j].outcomes[i] == QueuedCancelled
    ensures i !in races[k].called
  {
    var last := |races| - 1;
    FuturesSettleOnce(races, events, setup, i, j, last);
    FuturesSettleOnce(races, events, setup, i, k, last);
    EveryRunKeepsInv(races, events, setup, last);
    assert EndpointOk(races[last], i, setup);
  }

  // ----- what a future says about its endpoint's events -----------------------------------

  // The call raised, its response was not valid, or the observer refused the answer.
  ghost predicate WentWrong(past: seq<Event>, i: nat, setup: Setup) {
    || CallRaises(i) in past
    || Settle(i, false) in past
    || exists r: Response :: CallReturns(i, r) in past && !setup.valid(r)
  }

  ghost predicate Silent(past: seq<Event>, i: nat) {
    && CallRaises(i) !in past && Settle(i, true) !in past && Settle(i, false) !in past
    && forall r: Response :: CallReturns(i, r) !in past
  }

  // Worker and future of one endpoint, as its own past events determine them.
  ghost predicate FitsPast(race: Race, past: seq<Event>, i: nat, setup: Setup)
    requires WellFormed(race, setup) && i < setup.count
  {
    var f, w := race.futures[i], race.workers[i];
    && (f.Pending? || IsCancelled(f) || w.Calling? ==> Silent(past, i))
    && (w.Observing? ==> Settle(i, true) !in past && Settle(i, false) !in past)
    && (w.Observing? && w.outcome.Some? ==> CallRaises(i) !in past && CallReturns(i, w.outcome.value) in past)
    && (w.Observing? && w.outcome.Some? ==> forall r: Response :: CallReturns(i, r) in past ==> r == w.outcome.value)
    && (w.Observing? && w.outcome.None? ==> WentWrong(past, i, setup))
    && (w.Observing? && w.outcome.None? ==> forall r: Response :: CallReturns(i, r) in past ==> !setup.valid(r))
    && (f.Value? ==> CallReturns(i, f.response) in past && Settle(i, true) in past && !WentWrong(past, i, setup))
    && (f.Value? ==> forall r: Response :: CallReturns(i, r) in past ==> r == f.response)
    && (f.Failure? ==> WentWrong(past, i, setup) && (Settle(i, true) in past || Settle(i, false) in past))
    && (f.Failure? && Settle(i, true) in past ==> forall r: Response :: CallReturns(i, r) in past ==> !setup.valid(r))
  }

  predicate Concerns(e: Event, i: nat) {
    (e.Begin? || e.CallReturns? || e.CallRaises? || e.Settle?) && e.i == i
  }

  // Anything else leaves the endpoint's worker alone and cancels at most a pending future.
  lemma OthersLeaveEndpoint(race: Race, e: Event, i: nat, setup: Setup)
    requires Enabled(race, e, setup) && i < setup.count && !Concerns(e, i)
    ensures WellFormed(Apply(race, e, setup), setup)
    ensures Apply(race, e, setup).workers[i] == race.workers[i]
    ensures || Apply(race, e, setup).futures[i] == race.futures[i]
            || (race.futures[i].Pending? && Apply(race, e, setup).futures[i].Cancelled?)
  {
    hide Winner;
  }

  lemma SilenceContinues(past: seq<Event>, e: Event, i: nat, setup: Setup)
    requires !Concerns(e, i)
    ensures Silent(past + [e], i) <==> Silent(past, i)
    ensures WentWrong(past + [e], i, setup) <==> WentWrong(past, i, setup)
    ensures forall r: Response :: CallReturns(i, r) in past + [e] <==> CallReturns(i, r) in past
    ensures CallRaises(i) in past + [e] <==> CallRaises(i) in past
    ensures forall ok: bool :: Settle(i, ok) in past + [e] <==> Settle(i, ok) in past
  {
    var next := past + [e];
    assert forall x :: x in next <==> x in past || x == e;
  }

  lemma OwnStepFitsPast(race: Race, past: seq<Event>, e: Event, i: nat, setup: Setup)
    requires Inv(race, setup) && Enabled(race, e, setup) && i < setup.count && FitsPast(race, past, i, setup)
    requires Concerns(e, i)
    ensures WellFormed(Apply(race, e, setup), setup)
    ensures FitsPast(Apply(race, e, setup), past + [e], i, setup)
  {
    hide CoordinatorOk, CancelLoser, Record, AtStage, Target, Winner;
    assert EndpointOk(race, i, setup);
    var next := past + [e];
    assert e in next && forall x :: x in next <==> x in past || x == e;
    if e == Settle(i, false) { assert WentWrong(next, i, setup); }
  }

  lemma StepFitsPast(race: Race, past: seq<Event>, e: Event, i: nat, setup: Setup)
    requires Inv(race, setup) && Enabled(race, e, setup) && i < setup.count && FitsPast(race, past, i, setup)
    ensures WellFormed(Apply(race, e, setup), setup)
    ensures FitsPast(Apply(race, e, setup), past + [e], i, setup)
  {
    hide Apply, Enabled, Inv, Silent, WentWrong;
    if Concerns(e, i) {
      OwnStepFitsPast(race, past, e, i, setup);
    } else {
      OthersLeaveEndpoint(race, e, i, setup);
      SilenceContinues(past, e, i, setup);
    }
  }

  lemma {:induction false} EveryRunFitsPast(races: seq<Race>, events: seq<Event>, setup: Setup, k: nat, i: nat)
    requires Run(races, events, setup) && k < |races| && i < setup.count
    ensures WellFormed(races[k], setup) && FitsPast(races[k], events[..k], i, setup)
  {
    hide Apply, Enabled, Inv, FitsPast;
    if k == 0 {
      InitiallyFitsPast(setup, i);
      assert events[..0] == [];
    } else {
      EveryRunFitsPast(races, events, setup, k - 1, i);
      EveryRunKeepsInv(races, events, setup, k - 1);
      StepFitsPast(races[k - 1], events[..k - 1], events[k - 1], i, setup);
      assert events[..k] == events[..k - 1] + [events[k - 1]];
    }
  }

  lemma InitiallyFitsPast(setup: Setup, i: nat)
    requires i < setup.count
    ensures WellFormed(Initial(setup), setup) && FitsPast(Initial(setup), [], i, setup)
  {
  }

  // Under every scheduling, and in terms of what happened alone: an endpoint's future holds a
  // response exactly when its call returned that response, it was valid, and the worker settled
  // without its observer refusing; and it is a failure exactly when the worker settled and the
  // call raised, the response was invalid, or the observer refused.
  lemma FutureTellsWhatHappened(races: seq<Race>, events: seq<Event>, setup: Setup, k: nat, i: nat, r: Response)
    requires Run(races, events, setup) && k < |races| && i < setup.count
    ensures WellFormed(races[k], setup)
    ensures races[k].futures[i] == Value(r) <==>
      CallReturns(i, r) in events[..k] && setup.valid(r) && Settle(i, true) in events[..k]
    ensures races[k].futures[i] == Failure <==>
      WentWrong(events[..k], i, setup) && (Settle(i, true) in events[..k] || Settle(i, false) in events[..k])
  {
    hide Apply, Enabled;
    EveryRunFitsPast(races, events, setup, k, i);
    EveryRunKeepsInv(races, events, setup, k);
    assert EndpointOk(races[k], i, setup);
  }

  // ----- what the coordinator does with the futures ----------------------------------------

  // A batch with a value in it has its lowest-declared such endpoint as winner; a batch of
  // failures leaves the coordinator waiting for the rest, and with no rest all have failed.
  lemma CollectDecides(race: Race, done: set<nat>, setup: Setup)
    requires Inv(race, setup) && Enabled(race, Collect(done), setup)
    ensures var next := Apply(race, Collect(done), setup);
      && next.futures == race.futures
      && (next.coordinator.CancellingLosers? <==> exists i: nat :: i in done && race.futures[i].Value?)
      && (next.coordinator.CancellingLosers? ==>
            && next.coordinator.batch == done && next.coordinator.winner in done && race.futures[next.coordinator.winner].Value?
            && forall i: nat :: i in done && race.futures[i].Value? ==> next.coordinator.winner <= i)
      && (!next.coordinator.CancellingLosers? ==>
            next.coordinator == if race.coordinator.pending == done then AllFailed else AwaitingBatch(race.coordinator.pending - done))
  {
    assert race.coordinator.pending - done == {} <==> race.coordinator.pending == done;
  }

  // No worker is ever stuck, and every settled future can be collected.
  lemma EveryWorkerCanGoOn(race: Race, setup: Setup, i: nat, r: Response)
    requires Inv(race, setup) && i < setup.count
    ensures race.futures[i].Pending? ==> Enabled(race, Begin(i), setup) && Apply(race, Begin(i), setup).futures[i] == InFlight
    ensures race.futures[i].Pending? ==> i in Apply(race, Begin(i), setup).called
    ensures race.workers[i].Calling? ==> Enabled(race, CallReturns(i, r), setup) && Enabled(race, CallRaises(i), setup)
    ensures race.workers[i].Observing? ==> Enabled(race, Settle(i, true), setup) && Enabled(race, Settle(i, false), setup)
    ensures race.futures[i].InFlight? ==> race.workers[i].Calling? || race.workers[i].Observing?
    ensures race.coordinator.AwaitingBatch? && i in race.coordinator.pending && Settled(race.futures[i]) ==>
      Enabled(race, Collect({i}), setup)
  {
    assert EndpointOk(race, i, setup);
  }

  // One step of cancelling a loser, by what its future is at that moment: a settled or cancelled
  // one is reported as that; a pending one is cancelled; for one in flight the transport is
  // asked if that is allowed, and otherwise, or when asking raises, the call is left to drain.
  lemma LoserIsReported(race: Race, transportOk: bool, setup: Setup)
    requires Inv(race, setup) && Enabled(race, CancelStep(transportOk), setup)
    ensures var i, next := Target(race, setup).value, Apply(race, CancelStep(transportOk), setup);
      var f, stage := race.futures[i], StageOf(race.coordinator);
      && next.workers == race.workers && next.called == race.called
      && next.futures == (if stage.TryCancel? && f.Pending? then race.futures[i := Cancelled] else race.futures)
      && (stage.Look? && (f.Pending? || f.InFlight?) ==> StageOf(next.coordinator) == TryCancel && next.outcomes == race.outcomes)
      && (stage.Look? && f.Value? ==> next.outcomes == race.outcomes[i := Completed])
      && (stage.Look? && f.Failure? ==> next.outcomes == race.outcomes[i := Failed])
      && (stage.TryCancel? && f.Pending? ==> next.outcomes == race.outcomes[i := QueuedCancelled])
      && (stage.TryCancel? && !f.Pending? ==> StageOf(next.coordinator) == AskTransport && next.outcomes == race.outcomes)
      && (stage.AskTransport? ==>
            next.outcomes == race.outcomes[i := if setup.cancellable(i) && transportOk then CancellationRequested else SafeDrain])
  {
    assert EndpointOk(race, Target(race, setup).value, setup);
  }

  // When the losers are through, the winner is returned.
  lemma WinnerIsReturned(race: Race, setup: Setup)
    requires Inv(race, setup) && race.coordinator.CancellingLosers?
    ensures race.coordinator.next < setup.count && race.coordinator.next != race.coordinator.winner ==>
      Enabled(race, CancelStep(true), setup) && Enabled(race, CancelStep(false), setup)
    ensures race.coordinator.next == race.coordinator.winner ==>
      Enabled(race, SkipWinner, setup) && Apply(race, SkipWinner, setup).coordinator == race.coordinator.(next := race.coordinator.next + 1, stage := Look)
    ensures race.coordinator.next == setup.count ==>
      Enabled(race, Finish, setup) && Apply(race, Finish, setup).coordinator == Returned(race.coordinator.winner, race.coordinator.batch)
  {
    hide EndpointOk;
  }

  // What a caller that gets a winner may rely on.
  lemma WinnerIsFirstValid(races: seq<Race>, events: seq<Event>, setup: Setup, k: nat)
    requires Run(races, events, setup) && k < |races| && races[k].coordinator.Returned?
    ensures WellFormed(races[k], setup)
    // the winner's call returned this very response, and the observer let it pass
    ensures var w := races[k].coordinator.winner;
      && w < setup.count && races[k].futures[w].Value?
      && CallReturns(w, races[k].futures[w].response) in events[..k] && Settle(w, true) in events[..k]
    ensures forall j: nat :: j in races[k].coordinator.batch && j < races[k].coordinator.winner ==> WentWrong(events[..k], j, setup)
    ensures var w, batch := races[k].coordinator.winner, races[k].coordinator.batch;
      && w < setup.count && w in batch && w in races[k].called && w in races[k].observed
      && races[k].futures[w].Value? && setup.valid(races[k].futures[w].response)
      && (forall j: nat :: j in batch && j < w ==> races[k].futures[j].Failure?)
      && races[k].outcomes.Keys == Everyone(setup) - {w}
  {
    hide Apply, Enabled, FitsPast, WentWrong;
    EveryRunKeepsInv(races, events, setup, k);
    var w := races[k].coordinator.winner;
    assert EndpointOk(races[k], w, setup);
    FutureTellsWhatHappened(races, events, setup, k, w, races[k].futures[w].response);
    forall j: nat | j in races[k].coordinator.batch && j < w ensures WentWrong(events[..k], j, setup) {
      FutureTellsWhatHappened(races, events, setup, k, j, "");
    }
  }

  // "all endpoints failed" and a deadline are reported truthfully.
  lemma FailureReportsAreTruthful(races: seq<Race>, events: seq<Event>, setup: Setup, k: nat, i: nat)
    requires Run(races, events, setup) && k < |races| && i < setup.count
    ensures WellFormed(races[k], setup)
    ensures races[k].coordinator.AllFailed? ==> races[k].futures[i].Failure? && i in races[k].called
    ensures races[k].coordinator.AllFailed? ==> WentWrong(events[..k], i, setup)
    ensures races[k].coordinator.TimedOut? && i !in races[k].outcomes ==> races[k].futures[i].Failure?
  {
    hide Apply, Enabled, FitsPast, WentWrong;
    FutureTellsWhatHappened(races, events, setup, k, i, "");
    EveryRunKeepsInv(races, events, setup, k);
    assert EndpointOk(races[k], i, setup);
  }
}
