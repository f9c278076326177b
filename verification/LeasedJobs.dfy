// The life of provider embedding jobs under any number of workers in any number of processes
// (contextual_orchestrator/batch_routing.py, ProviderEmbeddingBatchBackend).
//
// A worker is one execution of _run_job. Each event is one registry script, one lock
// operation or one local step; a worker may be interrupted, die, or lose its lease between
// any two of them.

module LeasedJobs {
  import opened Prelude
  import opened JobRegistry

  type WorkerId = nat

  // Deployment constants: the claim lease, and the execution timeout per request (None: no limit).
  datatype Config = Config(lease: nat, executionTimeout: Option<nat>)

  datatype Phase =
    | NeedDeadline
    | DeadlineClaimed(token: Token)                       // inside the claim of _execution_deadline
    | Ready                                               // at the head of the claim loop
    | Claimed(token: Token)                               // inside the execution claim
    | Executing(token: Token, requests: seq<EmbeddingRequest>)
    | Publishing(token: Token, terminal: Terminal)        // the outcome is known, not yet stored
    | ExpiryClaimed(token: Token)                         // inside the claim of _fail_expired_job
    | Leaving(token: Token, resume: bool)                 // about to release the claim

  datatype Worker = Worker(job: JobId, phase: Phase, deadline: Option<Deadline>)

  datatype System = System(registry: Registry, workers: map<WorkerId, Worker>, now: nat, nextToken: Token)

  const INITIAL := System(EMPTY, map[], 0, 0)

  datatype Event =
    | Tick(elapsed: nat)
    | ReserveRequests(job: JobId, requests: seq<EmbeddingRequest>)   // reserve(): first write
    | ReserveState(job: JobId)                                       // reserve(): second write
    | Start(job: JobId)                                              // start(): check-then-set as one step
    | Cancelled(job: JobId, reason: string)
    | Spawn(w: WorkerId, job: JobId)        // started, or recovered by a restarted process
    | Crash(w: WorkerId)
    | LoadDeadline(w: WorkerId)
    | ClaimForDeadline(w: WorkerId)
    | StoreDeadline(w: WorkerId)
    | ClaimJob(w: WorkerId)
    | Renew(w: WorkerId, ttl: nat)          // the renewal thread
    | BeginRun(w: WorkerId)                 // the mark-running script
    | RunnerReturns(w: WorkerId, vectors: seq<seq<real>>, promptTokens: int)
    | RunnerRaises(w: WorkerId, errorType: string)
    | PublishOutcome(w: WorkerId, replyLost: bool, errorType: string)
    | ClaimExpired(w: WorkerId)
    | PublishExpired(w: WorkerId)
    | Abandon(w: WorkerId)                  // ensure_owned() or the registry raised
    | LeaveClaim(w: WorkerId)

  // ----- classifying what the runner returned ------------------------------------------

  function Lengths(vectors: seq<seq<real>>): set<nat> {
    set v | v in vectors :: |v|
  }

  function Items(requests: seq<EmbeddingRequest>, vectors: seq<seq<real>>): seq<ResultItem>
    requires |vectors| == |requests|
  {
    seq(|requests|, i requires 0 <= i < |requests| =>
      ResultItem(requests[i].customId, i, vectors[i], requests[i].model))
  }

  function IsPast(deadline: Deadline, now: nat): bool {
    deadline.At? && now >= deadline.time
  }

  function Classify(
      requests: seq<EmbeddingRequest>, vectors: seq<seq<real>>, promptTokens: int, deadline: Deadline, now: nat): Terminal
  {
    if IsPast(deadline, now) then Fail(DeadlineExceeded)
    else if |vectors| != |requests| then Fail(Raised("ValueError"))
    else if vectors != [] && (Lengths(vectors) == {0} || |Lengths(vectors)| != 1) then Fail(Raised("ValueError"))
    else Done(Items(requests, vectors), promptTokens)
  }

  // A run is stored as completed exactly when it is in time, complete, and of one non-zero
  // dimension; and then it holds one result per request, in order.
  lemma CompletedExactlyWhenUniform(
      requests: seq<EmbeddingRequest>, vectors: seq<seq<real>>, promptTokens: int, deadline: Deadline, now: nat)
    ensures var terminal := Classify(requests, vectors, promptTokens, deadline, now);
      && (terminal.Done? <==>
            !IsPast(deadline, now) && |vectors| == |requests|
            && forall i :: 0 <= i < |vectors| ==> |vectors[i]| == |vectors[0]| && |vectors[i]| > 0)
      && (terminal.Done? ==> ResultsMatch(terminal.results, requests))
      && (terminal.Done? ==> forall i :: 0 <= i < |requests| ==> terminal.results[i].embedding == vectors[i])
  {
    if vectors != [] {
      var lengths := Lengths(vectors);
      var n := |vectors[0]|;
      assert n in lengths;
      if |lengths| == 1 {
        assert lengths - {n} == {} by { assert |lengths - {n}| == 0; }
        forall i | 0 <= i < |vectors| ensures |vectors[i]| == n {
          assert |vectors[i]| in lengths;
          assert |vectors[i]| !in lengths - {n};
        }
        assert lengths == {n};
      }
      if forall i :: 0 <= i < |vectors| ==> |vectors[i]| == n && |vectors[i]| > 0 {
        assert lengths == {n};
      }
    }
  }

  // ----- the steps ------------------------------------------------------------------------

  function TokenOf(phase: Phase): Option<Token> {
    match phase
    case NeedDeadline => None
    case Ready => None
    case DeadlineClaimed(t) => Some(t)
    case Claimed(t) => Some(t)
    case Executing(t, _) => Some(t)
    case Publishing(t, _) => Some(t)
    case ExpiryClaimed(t) => Some(t)
    case Leaving(t, _) => Some(t)
  }

  function ActorOf(e: Event): Option<WorkerId> {
    match e
    case Tick(_) => None
    case ReserveRequests(_, _) => None
    case ReserveState(_) => None
    case Start(_) => None
    case Cancelled(_, _) => None
    case Spawn(_, _) => None
    case Crash(w) => Some(w)
    case LoadDeadline(w) => Some(w)
    case ClaimForDeadline(w) => Some(w)
    case StoreDeadline(w) => Some(w)
    case ClaimJob(w) => Some(w)
    case Renew(w, _) => Some(w)
    case BeginRun(w) => Some(w)
    case RunnerReturns(w, _, _) => Some(w)
    case RunnerRaises(w, _) => Some(w)
    case PublishOutcome(w, _, _) => Some(w)
    case ClaimExpired(w) => Some(w)
    case PublishExpired(w) => Some(w)
    case Abandon(w) => Some(w)
    case LeaveClaim(w) => Some(w)
  }

  // A claim is granted some time after its worker found the job pending and in time; by then
  // the job may have ended or its deadline passed, so neither is asked here. A claim that is
  // refused leaves its worker where it was.
  predicate PhaseAllows(s: System, e: Event, worker: Worker) {
    var job := worker.job;
    match e
    case Crash(_) => true
    case LoadDeadline(_) => worker.phase.NeedDeadline? && job in s.registry.deadlines
    case ClaimForDeadline(_) => worker.phase.NeedDeadline?
    case StoreDeadline(_) => worker.phase.DeadlineClaimed? && job in s.registry.requests
    case ClaimJob(_) =>
      worker.phase.Ready? && worker.deadline.Some?
    case Renew(_, _) => worker.phase.Claimed? || worker.phase.Executing? || worker.phase.Publishing?
    case BeginRun(_) => worker.phase.Claimed?
    case RunnerReturns(_, _, _) => worker.phase.Executing? && worker.deadline.Some?
    case RunnerRaises(_, _) => worker.phase.Executing?
    case PublishOutcome(_, _, _) => worker.phase.Publishing?
    case ClaimExpired(_) =>
      worker.phase.Ready? && worker.deadline.Some? && IsPast(worker.deadline.value, s.now)
    case PublishExpired(_) => worker.phase.ExpiryClaimed?
    case Abandon(_) => TokenOf(worker.phase).Some?
    case LeaveClaim(_) => worker.phase.Leaving?
    case _ => false
  }

  predicate Enabled(s: System, e: Event) {
    match e
    case Tick(_) => true
    case ReserveRequests(job, _) => job !in s.registry.requests && job !in s.registry.states
    case ReserveState(job) => job in s.registry.requests && job !in s.registry.states
    case Start(job) => job in s.registry.states && s.registry.states[job] == Reserved
    case Cancelled(_, _) => true
    case Spawn(w, _) => w !in s.workers
    case _ => ActorOf(e).Some? && ActorOf(e).value in s.workers && PhaseAllows(s, e, s.workers[ActorOf(e).value])
  }

  // The registry after the event.
  function Effect(s: System, e: Event, config: Config): Registry
    requires Enabled(s, e)
  {
    var r := s.registry;
    match e
    case ReserveRequests(job, requests) => r.(requests := r.requests[job := requests])
    case ReserveState(job) => r.(states := r.states[job := Reserved])
    case Start(job) => r.(states := r.states[job := Queued])
    case Cancelled(job, reason) => JobRegistry.Cancel(r, job, reason).0
    case ClaimForDeadline(w) => Acquire(r, s.workers[w].job, s.nextToken, s.now, config.lease).0
    case StoreDeadline(w) =>
      var job := s.workers[w].job;
      SetDeadlineIfAbsent(r, job, NewDeadline(|r.requests[job]|, s.now, config)).0
    case ClaimJob(w) => Acquire(r, s.workers[w].job, s.nextToken, s.now, config.lease).0
    case Renew(w, ttl) => Extend(r, s.workers[w].job, TokenOf(s.workers[w].phase).value, s.now, ttl).0
    case BeginRun(w) => MarkRunning(r, s.workers[w].job, s.workers[w].phase.token, s.now).0
    case PublishOutcome(w, _, _) =>
      Publish(r, s.workers[w].job, s.workers[w].phase.token, s.now, s.workers[w].phase.terminal).0
    case ClaimExpired(w) => Acquire(r, s.workers[w].job, s.nextToken, s.now, config.lease).0
    case PublishExpired(w) =>
      Publish(r, s.workers[w].job, s.workers[w].phase.token, s.now, Fail(DeadlineExceeded)).0
    case LeaveClaim(w) => JobRegistry.Release(r, s.workers[w].job, s.workers[w].phase.token, s.now).0
    case _ => r
  }

  function NewDeadline(requestCount: nat, now: nat, config: Config): Deadline {
    match config.executionTimeout
    case None => Never
    case Some(timeout) => At(now + timeout * (if requestCount > 1 then requestCount else 1))
  }

  predicate ClaimGranted(s: System, job: JobId, config: Config) {
    Acquire(s.registry, job, s.nextToken, s.now, config.lease).1
  }

  // The acting worker after the event; None when it stops.
  function NextWorker(s: System, e: Event, worker: Worker, config: Config): Option<Worker>
    requires Enabled(s, e) && ActorOf(e).Some? && worker == s.workers[ActorOf(e).value]
  {
    var job := worker.job;
    match e
    case Crash(_) => None
    case LoadDeadline(_) => Some(worker.(phase := Ready, deadline := Some(s.registry.deadlines[job])))
    case ClaimForDeadline(_) => Some(if ClaimGranted(s, job, config) then worker.(phase := DeadlineClaimed(s.nextToken)) else worker)
    case StoreDeadline(_) =>
      Some(worker.(phase := Leaving(worker.phase.token, true), deadline := Lookup(Effect(s, e, config).deadlines, job)))
    case ClaimJob(_) => Some(if ClaimGranted(s, job, config) then worker.(phase := Claimed(s.nextToken)) else worker)
    case Renew(_, _) => Some(worker)
    case BeginRun(_) =>
      var (_, ok) := MarkRunning(s.registry, job, worker.phase.token, s.now);
      if ok && job in s.registry.requests
      then Some(worker.(phase := Executing(worker.phase.token, s.registry.requests[job])))
      else Some(worker.(phase := Leaving(worker.phase.token, true)))
    case RunnerReturns(_, vectors, promptTokens) =>
      Some(worker.(phase := Publishing(worker.phase.token,
        Classify(worker.phase.requests, vectors, promptTokens, worker.deadline.value, s.now))))
    case RunnerRaises(_, errorType) =>
      Some(worker.(phase := Publishing(worker.phase.token, Fail(Raised(errorType)))))
    case PublishOutcome(_, replyLost, errorType) =>
      // A lost reply is an exception, and the handler then tries to publish a failure.
      if replyLost then Some(worker.(phase := Publishing(worker.phase.token, Fail(Raised(errorType)))))
      else Some(worker.(phase := Leaving(worker.phase.token, true)))
    case ClaimExpired(_) => Some(if ClaimGranted(s, job, config) then worker.(phase := ExpiryClaimed(s.nextToken)) else worker)
    case PublishExpired(_) => Some(worker.(phase := Leaving(worker.phase.token, true)))
    case Abandon(_) => Some(worker.(phase := Leaving(TokenOf(worker.phase).value, worker.deadline.Some?)))
    case LeaveClaim(_) =>
      if !worker.phase.resume then None else Some(worker.(phase := Ready))
    case _ => Some(worker)
  }

  function Apply(s: System, e: Event, config: Config): System
    requires Enabled(s, e)
  {
    var workers :=
      match ActorOf(e)
      case Some(w) =>
        (match NextWorker(s, e, s.workers[w], config)
         case Some(worker) => s.workers[w := worker]
         case None => s.workers - {w})
      case None => if e.Spawn? then s.workers[e.w := Worker(e.job, NeedDeadline, None)] else s.workers;
    System(
      Effect(s, e, config), workers,
      if e.Tick? then s.now + e.elapsed else s.now,
      if e.ClaimForDeadline? || e.ClaimJob? || e.ClaimExpired? then s.nextToken + 1 else s.nextToken)
  }

  // ----- the invariant --------------------------------------------------------------------

  ghost predicate WorkerOk(r: Registry, nextToken: Token, worker: Worker) {
    && (worker.deadline.Some? ==> worker.job in r.deadlines && r.deadlines[worker.job] == worker.deadline.value)
    && (TokenOf(worker.phase).Some? ==> TokenOf(worker.phase).value < nextToken)
    && (worker.phase.Executing? ==>
          worker.job in r.requests && r.requests[worker.job] == worker.phase.requests)
    && (worker.phase.Publishing? && worker.phase.terminal.Done? ==>
          worker.job in r.requests && ResultsMatch(worker.phase.terminal.results, r.requests[worker.job]))
  }

  ghost predicate TokensDistinct(workers: map<WorkerId, Worker>) {
    forall v, w :: v in workers && w in workers && v != w && TokenOf(workers[v].phase).Some? ==>
      TokenOf(workers[v].phase) != TokenOf(workers[w].phase)
  }

  ghost predicate Inv(s: System) {
    && RegistryOk(s.registry)
    && (forall w :: w in s.workers ==> WorkerOk(s.registry, s.nextToken, s.workers[w]))
    && TokensDistinct(s.workers)
  }

  lemma WorkerOkEvolves(r: Registry, next: Registry, t: Token, u: Token, worker: Worker)
    requires WorkerOk(r, t, worker) && Evolves(r, next) && t <= u
    ensures WorkerOk(next, u, worker)
  {
    assert RowEvolves(r, next, worker.job);
  }

  lemma EffectIsSafe(s: System, e: Event, config: Config)
    requires Inv(s) && Enabled(s, e)
    ensures RegistryOk(Effect(s, e, config)) && Evolves(s.registry, Effect(s, e, config))
  {
    hide WorkerOk, TokensDistinct, JobOk, RowEvolves, RegistryOk, Evolves, ResultsMatch, NewDeadline, Acquire, Extend, Release;
    hide Publish, SetDeadlineIfAbsent, LockHolder;
    var r := s.registry;
    match e
    case ReserveRequests(job, requests) => NewRequestsAreSafe(r, job, requests);
    case ReserveState(job) => NewStateIsSafe(r, job, Reserved);
    case Start(job) => NewStateIsSafe(r, job, Queued);
    case Cancelled(job, reason) => CancelIsSafe(r, job, reason);
    case BeginRun(w) => MarkRunningIsSafe(r, s.workers[w].job, s.workers[w].phase.token, s.now);
    case PublishOutcome(_, _, _) => PublishedIsSafe(s, e, config);
    case PublishExpired(_) => PublishedIsSafe(s, e, config);
    case _ => SideEffectIsSafe(s, e, config);
  }

  // Deadlines and locks change no row that the invariant speaks of.
  lemma SideEffectIsSafe(s: System, e: Event, config: Config)
    requires Inv(s) && Enabled(s, e)
    requires !e.ReserveRequests? && !e.ReserveState? && !e.Start? && !e.Cancelled?
    requires !e.BeginRun? && !e.PublishOutcome? && !e.PublishExpired?
    ensures RegistryOk(Effect(s, e, config)) && Evolves(s.registry, Effect(s, e, config))
  {
    hide WorkerOk, TokensDistinct, JobOk, RowEvolves, RegistryOk, Evolves, NewDeadline, LockHolder, IsPending;
    var r, next := s.registry, Effect(s, e, config);
    if !e.StoreDeadline? {
      assert next == r.(leases := next.leases);
    }
    SideFieldsAreSafe(r, next);
  }

  lemma PublishedIsSafe(s: System, e: Event, config: Config)
    requires Inv(s) && Enabled(s, e) && (e.PublishOutcome? || e.PublishExpired?)
    ensures RegistryOk(Effect(s, e, config)) && Evolves(s.registry, Effect(s, e, config))
  {
    hide WorkerOk, TokensDistinct, JobOk, RowEvolves, RegistryOk, Evolves, ResultsMatch;
    var r := s.registry;
    match e
    case PublishOutcome(w, _, _) =>
      assert WorkerOk(r, s.nextToken, s.workers[w]);
      OutcomeMatches(r, s.nextToken, s.workers[w]);
      PublishIsSafe(r, s.workers[w].job, s.workers[w].phase.token, s.now, s.workers[w].phase.terminal);
    case PublishExpired(w) =>
      PublishIsSafe(r, s.workers[w].job, s.workers[w].phase.token, s.now, Fail(DeadlineExceeded));
  }

  lemma OutcomeMatches(r: Registry, t: Token, worker: Worker)
    requires WorkerOk(r, t, worker) && worker.phase.Publishing?
    ensures worker.phase.terminal.Done? && worker.job in r.requests ==>
      ResultsMatch(worker.phase.terminal.results, r.requests[worker.job])
  {
  }

  lemma NewRequestsAreSafe(r: Registry, job: JobId, requests: seq<EmbeddingRequest>)
    requires RegistryOk(r) && job !in r.requests && job !in r.states
    ensures RegistryOk(r.(requests := r.requests[job := requests]))
    ensures Evolves(r, r.(requests := r.requests[job := requests]))
  {
    var next := r.(requests := r.requests[job := requests]);
    assert JobOk(r, job);
    forall j: JobId ensures JobOk(next, j) && RowEvolves(r, next, j) { assert JobOk(r, j); }
  }

  // Setting a non-terminal state is safe where the job has no terminal state yet.
  lemma NewStateIsSafe(r: Registry, job: JobId, status: Status)
    requires RegistryOk(r) && !IsTerminal(status)
    requires if job in r.states then !IsTerminal(r.states[job]) else job in r.requests
    ensures RegistryOk(r.(states := r.states[job := status]))
    ensures Evolves(r, r.(states := r.states[job := status]))
  {
    var next := r.(states := r.states[job := status]);
    assert JobOk(r, job);
    forall j: JobId ensures JobOk(next, j) && RowEvolves(r, next, j) { assert JobOk(r, j); }
  }

  // The acting worker: what it knows about its job stays right.
  lemma NextWorkerIsOk(s: System, e: Event, w: WorkerId, config: Config)
    requires Inv(s) && Enabled(s, e) && ActorOf(e) == Some(w)
    ensures var next := Apply(s, e, config);
      NextWorker(s, e, s.workers[w], config).Some? ==>
        WorkerOk(next.registry, next.nextToken, NextWorker(s, e, s.workers[w], config).value)
  {
    hide RegistryOk, ResultsMatch, Classify, Publish, MarkRunning, Acquire, Extend, Release;
    var r, next, worker := s.registry, Apply(s, e, config), s.workers[w];
    EffectIsSafe(s, e, config);
    assert WorkerOk(r, s.nextToken, worker);
    WorkerOkEvolves(r, next.registry, s.nextToken, next.nextToken, worker);
    assert RowEvolves(r, next.registry, worker.job);
    if e.RunnerReturns? {
      CompletedExactlyWhenUniform(worker.phase.requests, e.vectors, e.promptTokens, worker.deadline.value, s.now);
    }
  }

  lemma StepKeepsTokensDistinct(s: System, e: Event, config: Config)
    requires Inv(s) && Enabled(s, e)
    ensures TokensDistinct(Apply(s, e, config).workers)
  {
    hide RegistryOk, Effect, Classify;
    var next := Apply(s, e, config);
    forall v, w | v in next.workers && w in next.workers && v != w && TokenOf(next.workers[v].phase).Some?
      ensures TokenOf(next.workers[v].phase) != TokenOf(next.workers[w].phase)
    {
      if ActorOf(e).Some? {
        var a := ActorOf(e).value;
        NewTokenIsOldOrFresh(s, e, a, config);
        assert v != a ==> next.workers[v] == s.workers[v] && WorkerOk(s.registry, s.nextToken, s.workers[v]);
        assert w != a ==> next.workers[w] == s.workers[w] && WorkerOk(s.registry, s.nextToken, s.workers[w]);
      }
    }
  }

  lemma NewTokenIsOldOrFresh(s: System, e: Event, w: WorkerId, config: Config)
    requires Enabled(s, e) && ActorOf(e) == Some(w)
    ensures var next := NextWorker(s, e, s.workers[w], config);
      next.Some? ==>
        || TokenOf(next.value.phase) == None
        || TokenOf(next.value.phase) == TokenOf(s.workers[w].phase)
        || TokenOf(next.value.phase) == Some(s.nextToken)
  {
    hide Effect, Classify;
  }

  lemma StepKeepsInv(s: System, e: Event, config: Config)
    requires Inv(s) && Enabled(s, e)
    ensures Inv(Apply(s, e, config))
    ensures Evolves(s.registry, Apply(s, e, config).registry)
  {
    hide RegistryOk, Effect, NextWorker, WorkerOk, TokensDistinct;
    var next := Apply(s, e, config);
    EffectIsSafe(s, e, config);
    StepKeepsTokensDistinct(s, e, config);
    forall w | w in next.workers ensures WorkerOk(next.registry, next.nextToken, next.workers[w]) {
      if ActorOf(e) == Some(w) {
        NextWorkerIsOk(s, e, w, config);
      } else if w in s.workers {
        assert WorkerOk(s.registry, s.nextToken, s.workers[w]);
        WorkerOkEvolves(s.registry, next.registry, s.nextToken, next.nextToken, s.workers[w]);
      } else {
        SpawnedIsOk(next.registry, next.nextToken, e.job);
      }
    }
  }

  lemma SpawnedIsOk(r: Registry, t: Token, job: JobId)
    ensures WorkerOk(r, t, Worker(job, NeedDeadline, None))
  {
  }

  // ----- what holds along every run -------------------------------------------------------

  ghost predicate Run(systems: seq<System>, events: seq<Event>, config: Config) {
    && |systems| == |events| + 1
    && systems[0] == INITIAL
    && forall k :: 0 <= k < |events| ==> Enabled(systems[k], events[k]) && systems[k + 1] == Apply(systems[k], events[k], config)
  }

  lemma InitialInv()
    ensures Inv(INITIAL)
  {
    forall job: JobId ensures JobOk(EMPTY, job) {}
  }

  lemma {:induction false} EveryRunKeepsInv(systems: seq<System>, events: seq<Event>, config: Config, k: nat)
    requires Run(systems, events, config) && k < |systems|
    ensures Inv(systems[k])
  {
    hide Inv, Apply, Enabled;
    if k == 0 {
      InitialInv();
    } else {
      EveryRunKeepsInv(systems, events, config, k - 1);
      StepKeepsInv(systems[k - 1], events[k - 1], config);
    }
  }

  lemma {:induction false} RunEvolves(systems: seq<System>, events: seq<Event>, config: Config, j: nat, k: nat)
    requires Run(systems, events, config) && j <= k < |systems|
    ensures Evolves(systems[j].registry, systems[k].registry)
  {
    hide Inv, Apply, Enabled, Evolves;
    if j == k {
      EvolvesReflexively(systems[j].registry);
    } else {
      RunEvolves(systems, events, config, j, k - 1);
      EveryRunKeepsInv(systems, events, config, k - 1);
      StepKeepsInv(systems[k - 1], events[k - 1], config);
      EvolvesTransitively(systems[j].registry, systems[k - 1].registry, systems[k].registry);
    }
  }

  lemma EvolvesReflexively(r: Registry)
    ensures Evolves(r, r)
  {
    forall job: JobId ensures RowEvolves(r, r, job) {}
  }

  // In every interleaving a finished job stays as it finished, with exactly the records its
  // state calls for, and a completed one holds one matching result per submitted request.
  lemma TerminalForever(systems: seq<System>, events: seq<Event>, config: Config, j: nat, k: nat, job: JobId)
    requires Run(systems, events, config) && j <= k < |systems|
    requires job in systems[j].registry.states && IsTerminal(systems[j].registry.states[job])
    ensures var r, q := systems[j].registry, systems[k].registry;
      && job in q.states && q.states[job] == r.states[job]
      && Lookup(q.results, job) == Lookup(r.results, job) && Lookup(q.usage, job) == Lookup(r.usage, job)
      && Lookup(q.errors, job) == Lookup(r.errors, job) && Lookup(q.cancellations, job) == Lookup(r.cancellations, job)
      && (q.states[job] == Completed ==>
            && job in q.results && job in q.usage && job in q.requests && ResultsMatch(q.results[job], q.requests[job])
            && job !in q.errors && job !in q.cancellations)
      && (q.states[job] == Failed ==> job in q.errors && job !in q.results && job !in q.usage && job !in q.cancellations)
      && (q.states[job] == Status.Cancelled ==> job in q.cancellations && job !in q.results && job !in q.usage && job !in q.errors)
  {
    hide Apply, Enabled;
    RunEvolves(systems, events, config, j, k);
    EveryRunKeepsInv(systems, events, config, k);
    assert RowEvolves(systems[j].registry, systems[k].registry, job);
    assert JobOk(systems[k].registry, job);
  }

  // A pending or reserved job has no record of any kind.
  lemma NoRecordBeforeTheEnd(systems: seq<System>, events: seq<Event>, config: Config, k: nat, job: JobId)
    requires Run(systems, events, config) && k < |systems|
    requires job in systems[k].registry.states ==> !IsTerminal(systems[k].registry.states[job])
    ensures var r := systems[k].registry;
      job !in r.results && job !in r.usage && job !in r.errors && job !in r.cancellations
  {
    EveryRunKeepsInv(systems, events, config, k);
    assert JobOk(systems[k].registry, job);
  }

  // The deadline is written once; every worker that knows one knows that one.
  lemma OneDeadline(systems: seq<System>, events: seq<Event>, config: Config, j: nat, k: nat, w: WorkerId)
    requires Run(systems, events, config) && j <= k < |systems|
    requires w in systems[j].workers && systems[j].workers[w].deadline.Some?
    ensures Lookup(systems[k].registry.deadlines, systems[j].workers[w].job) == systems[j].workers[w].deadline
  {
    hide Apply, Enabled;
    EveryRunKeepsInv(systems, events, config, j);
    RunEvolves(systems, events, config, j, k);
    assert WorkerOk(systems[j].registry, systems[j].nextToken, systems[j].workers[w]);
    assert RowEvolves(systems[j].registry, systems[k].registry, systems[j].workers[w].job);
  }

  // A worker whose token is not the stored lock value changes no state and no record.
  lemma StaleTokenChangesNothing(s: System, e: Event, w: WorkerId, config: Config)
    requires Enabled(s, e) && ActorOf(e) == Some(w)
    requires var holder := LockHolder(s.registry, s.workers[w].job, s.now);
      holder == None || TokenOf(s.workers[w].phase) != holder
    ensures SameJobRows(s.registry, Apply(s, e, config).registry)
  {
  }

  // So at most one worker of a job can change it at any moment.
  lemma OwnersAreExclusive(systems: seq<System>, events: seq<Event>, config: Config, k: nat, v: WorkerId, w: WorkerId)
    requires Run(systems, events, config) && k < |systems|
    requires v in systems[k].workers && w in systems[k].workers && v != w
    requires systems[k].workers[v].job == systems[k].workers[w].job
    requires TokenOf(systems[k].workers[v].phase).Some?
    requires TokenOf(systems[k].workers[v].phase) == LockHolder(systems[k].registry, systems[k].workers[v].job, systems[k].now)
    ensures TokenOf(systems[k].workers[w].phase) != LockHolder(systems[k].registry, systems[k].workers[w].job, systems[k].now)
  {
    EveryRunKeepsInv(systems, events, config, k);
  }

  // ----- a held lock -----------------------------------------------------------------------

  // The event is the holder's own renewal or release.
  predicate ByHolder(s: System, e: Event, job: JobId, token: Token) {
    && (e.Renew? || e.LeaveClaim?)
    && e.w in s.workers && s.workers[e.w].job == job && TokenOf(s.workers[e.w].phase) == Some(token)
  }

  // While a claim has not lapsed, nobody else takes, prolongs or ends it.
  lemma HeldLeaseStays(s: System, e: Event, config: Config, job: JobId)
    requires Enabled(s, e) && LockHolder(s.registry, job, s.now).Some?
    requires !ByHolder(s, e, job, LockHolder(s.registry, job, s.now).value)
    ensures Lookup(Apply(s, e, config).registry.leases, job) == Lookup(s.registry.leases, job)
  {
    hide NextWorker, NewDeadline, IsPending, Classify;
  }

  lemma TimeAdvances(s: System, e: Event, config: Config)
    requires Enabled(s, e)
    ensures s.now <= Apply(s, e, config).now
  {
    hide Effect, NextWorker;
  }

  // So in every interleaving a claim that its holder neither renews nor releases is the lock
  // value until it lapses.
  lemma {:induction false} HeldLeaseLasts(systems: seq<System>, events: seq<Event>, config: Config, j: nat, k: nat, job: JobId)
    requires Run(systems, events, config) && j <= k < |systems|
    requires job in systems[j].registry.leases && systems[k].now < systems[j].registry.leases[job].expiresAt
    requires forall i :: j <= i < k ==> !ByHolder(systems[i], events[i], job, systems[j].registry.leases[job].token)
    ensures LockHolder(systems[k].registry, job, systems[k].now) == Some(systems[j].registry.leases[job].token)
    ensures Lookup(systems[k].registry.leases, job) == Lookup(systems[j].registry.leases, job)
  {
    hide Enabled, Apply, ByHolder;
    if j < k {
      TimeAdvances(systems[k - 1], events[k - 1], config);
      HeldLeaseLasts(systems, events, config, j, k - 1, job);
      HeldLeaseStays(systems[k - 1], events[k - 1], config, job);
    }
  }

  // ----- what an undisturbed execution achieves ---------------------------------------------

  function After(s: System, events: seq<Event>, config: Config): Option<System>
    decreases |events|
  {
    if events == [] then Some(s)
    else if Enabled(s, events[0]) then After(Apply(s, events[0], config), events[1..], config)
    else None
  }

  lemma {:induction false} AfterAppend(s: System, first: seq<Event>, second: seq<Event>, config: Config)
    requires After(s, first, config).Some?
    ensures After(s, first + second, config) == After(After(s, first, config).value, second, config)
    decreases |first|
  {
    hide Enabled, Apply;
    if first == [] {
      assert first + second == second;
    } else {
      assert (first + second)[1..] == first[1..] + second;
      AfterAppend(Apply(s, first[0], config), first[1..], second, config);
    }
  }

  lemma AfterOne(s: System, e: Event, config: Config)
    requires Enabled(s, e)
    ensures After(s, [e], config) == Some(Apply(s, e, config))
  {
    hide Enabled, Apply;
    assert [e][1..] == [];
  }

  lemma AfterTwo(s: System, first: Event, second: Event, config: Config)
    requires Enabled(s, first) && Enabled(Apply(s, first, config), second)
    ensures After(s, [first, second], config) == Some(Apply(Apply(s, first, config), second, config))
  {
    hide Enabled, Apply;
    assert [first, second][1..] == [second];
    AfterOne(Apply(s, first, config), second, config);
  }

  // A worker that may claim: its job is pending, its requests are stored, and nobody holds the lock.
  ghost predicate MayClaim(s: System, w: WorkerId, config: Config) {
    && w in s.workers && s.workers[w].phase.Ready? && s.workers[w].deadline.Some?
    && s.workers[w].job in s.registry.requests && IsPending(s.registry, s.workers[w].job)
    && LockHolder(s.registry, s.workers[w].job, s.now) == None && config.lease > 0
  }

  // The system at which a claimed run stands when its runner is called.
  ghost function AtRunner(s: System, w: WorkerId, config: Config): System
    requires MayClaim(s, w, config)
  {
    var job := s.workers[w].job;
    System(
      s.registry.(leases := s.registry.leases[job := Lease(s.nextToken, s.now + config.lease)],
                  states := s.registry.states[job := Running]),
      s.workers[w := s.workers[w].(phase := Executing(s.nextToken, s.registry.requests[job]))],
      s.now, s.nextToken + 1)
  }

  lemma ClaimAndBegin(s: System, w: WorkerId, config: Config)
    requires MayClaim(s, w, config)
    ensures After(s, [ClaimJob(w), BeginRun(w)], config) == Some(AtRunner(s, w, config))
  {
    hide After, NewDeadline, Publish, Classify;
    var claimed := Apply(s, ClaimJob(w), config);
    assert claimed.workers[w] == s.workers[w].(phase := Claimed(s.nextToken));
    var begun := Apply(claimed, BeginRun(w), config);
    assert begun.registry == AtRunner(s, w, config).registry;
    assert begun.workers == AtRunner(s, w, config).workers;
    AfterTwo(s, ClaimJob(w), BeginRun(w), config);
  }

  function WithTerminal(r: Registry, job: JobId, terminal: Terminal): Registry {
    match terminal
    case Done(results, promptTokens) =>
      r.(states := r.states[job := Completed], results := r.results[job := results], usage := r.usage[job := promptTokens])
    case Fail(error) => r.(states := r.states[job := Failed], errors := r.errors[job := error])
  }

  // Giving the lock back.
  lemma LeaveStep(s: System, w: WorkerId, token: Token, config: Config)
    requires w in s.workers && s.workers[w].phase == Leaving(token, true)
    requires LockHolder(s.registry, s.workers[w].job, s.now) == Some(token)
    ensures After(s, [LeaveClaim(w)], config) == Some(s.(
      workers := s.workers[w := s.workers[w].(phase := Ready)],
      registry := s.registry.(leases := s.registry.leases - {s.workers[w].job})))
  {
    hide After, NewDeadline, Classify, Publish, MarkRunning, Acquire, Extend;
    AfterOne(s, LeaveClaim(w), config);
  }

  // The known outcome is stored.
  lemma PublishStep(s: System, e: Event, w: WorkerId, token: Token, terminal: Terminal, config: Config)
    requires w in s.workers
    requires || (s.workers[w].phase == Publishing(token, terminal) && e == PublishOutcome(w, false, ""))
             || (s.workers[w].phase == ExpiryClaimed(token) && terminal == Fail(DeadlineExceeded) && e == PublishExpired(w))
    requires LockHolder(s.registry, s.workers[w].job, s.now) == Some(token) && IsPending(s.registry, s.workers[w].job)
    ensures After(s, [e], config) == Some(s.(
      workers := s.workers[w := s.workers[w].(phase := Leaving(token, true))],
      registry := WithTerminal(s.registry, s.workers[w].job, terminal)))
  {
    hide After, NewDeadline, Classify, MarkRunning, Acquire, Extend, Release;
    AfterOne(s, e, config);
  }

  // From a known outcome: it is stored, and the lock is given back.
  lemma PublishAndLeave(s: System, e: Event, w: WorkerId, token: Token, terminal: Terminal, config: Config)
    requires w in s.workers
    requires || (s.workers[w].phase == Publishing(token, terminal) && e == PublishOutcome(w, false, ""))
             || (s.workers[w].phase == ExpiryClaimed(token) && terminal == Fail(DeadlineExceeded) && e == PublishExpired(w))
    requires LockHolder(s.registry, s.workers[w].job, s.now) == Some(token) && IsPending(s.registry, s.workers[w].job)
    ensures var job := s.workers[w].job;
      After(s, [e] + [LeaveClaim(w)], config) == Some(s.(
        workers := s.workers[w := s.workers[w].(phase := Ready)],
        registry := WithTerminal(s.registry, job, terminal).(leases := s.registry.leases - {job})))
  {
    hide After;
    PublishStep(s, e, w, token, terminal, config);
    var stored := After(s, [e], config).value;
    LeaveStep(stored, w, token, config);
    AfterAppend(s, [e], [LeaveClaim(w)], config);
    assert stored.workers[w := s.workers[w].(phase := Ready)] == s.workers[w := s.workers[w].(phase := Ready)];
  }

  // Every vector is non-empty and of the length of the first, one vector per request.
  ghost predicate Uniform(vectors: seq<seq<real>>, count: nat) {
    && |vectors| == count
    && forall i :: 0 <= i < |vectors| ==> |vectors[i]| == |vectors[0]| && |vectors[i]| > 0
  }

  function Undisturbed(w: WorkerId, elapsed: nat, outcome: Event): seq<Event> {
    [ClaimJob(w), BeginRun(w)] + ([Tick(elapsed), outcome] + ([PublishOutcome(w, false, "")] + [LeaveClaim(w)]))
  }

  // What the runner's answer, given while its worker executes, is classified as.
  function OutcomeOf(outcome: Event, requests: seq<EmbeddingRequest>, deadline: Deadline, now: nat): Terminal
    requires outcome.RunnerReturns? || outcome.RunnerRaises?
  {
    match outcome
    case RunnerReturns(_, vectors, promptTokens) => Classify(requests, vectors, promptTokens, deadline, now)
    case RunnerRaises(_, errorType) => Fail(Raised(errorType))
  }

  lemma OutcomeBecomesKnown(s: System, w: WorkerId, elapsed: nat, outcome: Event, config: Config)
    requires w in s.workers && s.workers[w].phase.Executing? && s.workers[w].deadline.Some?
    requires outcome.RunnerReturns? || outcome.RunnerRaises?
    requires outcome.w == w
    ensures var worker := s.workers[w];
      var terminal := OutcomeOf(outcome, worker.phase.requests, worker.deadline.value, s.now + elapsed);
      After(s, [Tick(elapsed), outcome], config) == Some(s.(
        now := s.now + elapsed, workers := s.workers[w := worker.(phase := Publishing(worker.phase.token, terminal))]))
  {
    hide After, NewDeadline, Classify, Acquire, Extend, Release, Publish, MarkRunning;
    AfterTwo(s, Tick(elapsed), outcome, config);
  }

  lemma TerminalIsStored(s: System, w: WorkerId, elapsed: nat, outcome: Event, config: Config)
    requires MayClaim(s, w, config) && elapsed < config.lease
    requires outcome.RunnerReturns? || outcome.RunnerRaises?
    requires outcome.w == w
    ensures After(s, Undisturbed(w, elapsed, outcome), config).Some?
    ensures var job, r, after := s.workers[w].job, s.registry, After(s, Undisturbed(w, elapsed, outcome), config).value;
      var terminal := OutcomeOf(outcome, r.requests[job], s.workers[w].deadline.value, s.now + elapsed);
      && after.workers == s.workers && after.now == s.now + elapsed
      && after.registry == WithTerminal(r, job, terminal).(leases := r.leases - {job})
  {
    hide After, OutcomeOf;
    var job := s.workers[w].job;
    var running := AtRunner(s, w, config);
    var terminal := OutcomeOf(outcome, s.registry.requests[job], s.workers[w].deadline.value, s.now + elapsed);
    ClaimAndBegin(s, w, config);
    OutcomeBecomesKnown(running, w, elapsed, outcome, config);
    var known := After(running, [Tick(elapsed), outcome], config).value;
    PublishAndLeave(known, PublishOutcome(w, false, ""), w, s.nextToken, terminal, config);
    AfterAppend(running, [Tick(elapsed), outcome], [PublishOutcome(w, false, "")] + [LeaveClaim(w)], config);
    AfterAppend(s, [ClaimJob(w), BeginRun(w)], [Tick(elapsed), outcome] + ([PublishOutcome(w, false, "")] + [LeaveClaim(w)]), config);
    var last := After(s, Undisturbed(w, elapsed, outcome), config).value;
    assert last.workers == s.workers;
    assert last.registry.leases == s.registry.leases - {job};
    assert running.registry.states[job := Completed] == s.registry.states[job := Completed];
    assert running.registry.states[job := Failed] == s.registry.states[job := Failed];
  }

  // A run that nobody disturbs within its lease ends its job as the runner's answer says: one
  // result per request in order for uniform vectors in time, else the failure that applies.
  // The lock is free again and the worker is back at the head of its loop.
  lemma UndisturbedRunEndsItsJob(s: System, w: WorkerId, elapsed: nat, outcome: Event, config: Config)
    requires MayClaim(s, w, config) && elapsed < config.lease
    requires outcome.RunnerReturns? || outcome.RunnerRaises?
    requires outcome.w == w
    ensures After(s, Undisturbed(w, elapsed, outcome), config).Some?
    ensures var job, requests := s.workers[w].job, s.registry.requests[s.workers[w].job];
      var after := After(s, Undisturbed(w, elapsed, outcome), config).value;
      var late := s.workers[w].deadline.value.At? && s.now + elapsed >= s.workers[w].deadline.value.time;
      && after.workers == s.workers && job !in after.registry.leases && job in after.registry.states
      && (outcome.RunnerReturns? && !late && Uniform(outcome.vectors, |requests|) ==>
            && after.registry.states[job] == Completed && Lookup(after.registry.usage, job) == Some(outcome.promptTokens)
            && Lookup(after.registry.results, job) == Some(seq(|requests|, i requires 0 <= i < |requests| =>
                 ResultItem(requests[i].customId, i, outcome.vectors[i], requests[i].model))))
      && (!(outcome.RunnerReturns? && !late && Uniform(outcome.vectors, |requests|)) ==>
            && after.registry.states[job] == Failed
            && Lookup(after.registry.errors, job) == Some(
                 if outcome.RunnerRaises? then Raised(outcome.errorType)
                 else if late then DeadlineExceeded
                 else Raised("ValueError")))
  {
    hide After, Undisturbed, AtRunner;
    var job, requests := s.workers[w].job, s.registry.requests[s.workers[w].job];
    TerminalIsStored(s, w, elapsed, outcome, config);
    if outcome.RunnerReturns? {
      CompletedExactlyWhenUniform(requests, outcome.vectors, outcome.promptTokens, s.workers[w].deadline.value, s.now + elapsed);
    }
  }

  lemma ClaimExpiredStep(s: System, w: WorkerId, config: Config)
    requires MayClaim(s, w, config)
    requires s.workers[w].deadline.value.At? && s.now >= s.workers[w].deadline.value.time
    ensures var job, r := s.workers[w].job, s.registry;
      After(s, [ClaimExpired(w)], config) == Some(s.(
        nextToken := s.nextToken + 1,
        workers := s.workers[w := s.workers[w].(phase := ExpiryClaimed(s.nextToken))],
        registry := r.(leases := r.leases[job := Lease(s.nextToken, s.now + config.lease)])))
  {
    hide After, NewDeadline, Classify, Publish, MarkRunning, Extend, Release;
    AfterOne(s, ClaimExpired(w), config);
  }

  // A pending job whose deadline has passed is ended by whoever claims it.
  lemma ExpiredJobFails(s: System, w: WorkerId, config: Config)
    requires MayClaim(s, w, config)
    requires s.workers[w].deadline.value.At? && s.now >= s.workers[w].deadline.value.time
    ensures var job, r := s.workers[w].job, s.registry;
      After(s, [ClaimExpired(w)] + ([PublishExpired(w)] + [LeaveClaim(w)]), config) == Some(s.(
        nextToken := s.nextToken + 1,
        registry := r.(states := r.states[job := Failed], errors := r.errors[job := DeadlineExceeded], leases := r.leases - {job})))
  {
    hide After;
    ClaimExpiredStep(s, w, config);
    var claimed := After(s, [ClaimExpired(w)], config).value;
    PublishAndLeave(claimed, PublishExpired(w), w, s.nextToken, Fail(DeadlineExceeded), config);
    AfterAppend(s, [ClaimExpired(w)], [PublishExpired(w)] + [LeaveClaim(w)], config);
    assert claimed.workers[w := claimed.workers[w].(phase := Ready)] == s.workers;
    assert claimed.registry.leases - {s.workers[w].job} == s.registry.leases - {s.workers[w].job};
  }

  // A worker that finds no deadline claims the job, stores one, and gives the claim back.
  lemma DeadlineIsSet(s: System, w: WorkerId, config: Config)
    requires w in s.workers && s.workers[w].phase.NeedDeadline? && config.lease > 0
    requires s.workers[w].job in s.registry.requests && s.workers[w].job !in s.registry.deadlines
    requires s.workers[w].job !in s.registry.leases
    ensures var job, r := s.workers[w].job, s.registry;
      var deadline := NewDeadline(|r.requests[job]|, s.now, config);
      After(s, [ClaimForDeadline(w), StoreDeadline(w)] + [LeaveClaim(w)], config) == Some(s.(
        nextToken := s.nextToken + 1,
        workers := s.workers[w := Worker(job, Ready, Some(deadline))],
        registry := r.(deadlines := r.deadlines[job := deadline])))
  {
    hide After, Classify, Publish, MarkRunning, NewDeadline;
    var job, r := s.workers[w].job, s.registry;
    var claimed := Apply(s, ClaimForDeadline(w), config);
    assert claimed.workers[w].phase == DeadlineClaimed(s.nextToken);
    var stored := Apply(claimed, StoreDeadline(w), config);
    AfterTwo(s, ClaimForDeadline(w), StoreDeadline(w), config);
    AfterAppend(s, [ClaimForDeadline(w), StoreDeadline(w)], [LeaveClaim(w)], config);
    LeaveStep(stored, w, s.nextToken, config);
    var left := After(stored, [LeaveClaim(w)], config).value;
    assert left.workers == s.workers[w := Worker(job, Ready, stored.workers[w].deadline)];
    assert left.registry.leases == s.registry.leases;
  }

  lemma JobIsStarted(s: System, job: JobId, requests: seq<EmbeddingRequest>, w: WorkerId, config: Config)
    requires job !in s.registry.states && job !in s.registry.requests && w !in s.workers
    ensures After(s, [ReserveRequests(job, requests), ReserveState(job)] + [Start(job), Spawn(w, job)], config) == Some(s.(
      workers := s.workers[w := Worker(job, NeedDeadline, None)],
      registry := s.registry.(requests := s.registry.requests[job := requests], states := s.registry.states[job := Queued])))
  {
    hide After, Classify, Publish, MarkRunning, Acquire, Extend, Release, SetDeadlineIfAbsent;
    var a := Apply(s, ReserveRequests(job, requests), config);
    var b := Apply(a, ReserveState(job), config);
    AfterTwo(s, ReserveRequests(job, requests), ReserveState(job), config);
    var c := Apply(b, Start(job), config);
    AfterTwo(b, Start(job), Spawn(w, job), config);
    AfterAppend(s, [ReserveRequests(job, requests), ReserveState(job)], [Start(job), Spawn(w, job)], config);
    assert s.registry.states[job := Reserved][job := Queued] == s.registry.states[job := Queued];
  }

  // A job never seen before is reserved, started and picked up: it is pending with its requests,
  // and its deadline is the execution timeout for every request, at least one, from now.
  lemma FreshJobBecomesClaimable(s: System, job: JobId, requests: seq<EmbeddingRequest>, w: WorkerId, config: Config)
    requires job !in s.registry.states && job !in s.registry.requests && job !in s.registry.deadlines
    requires job !in s.registry.leases && w !in s.workers && config.lease > 0
    ensures var after := After(s, [ReserveRequests(job, requests), ReserveState(job)] + [Start(job), Spawn(w, job)]
                                  + ([ClaimForDeadline(w), StoreDeadline(w)] + [LeaveClaim(w)]), config);
      && after.Some? && MayClaim(after.value, w, config) && after.value.workers[w].job == job
      && after.value.registry.states == s.registry.states[job := Queued]
      && after.value.registry.requests == s.registry.requests[job := requests]
      && after.value.workers[w].deadline == Some(
           if config.executionTimeout.None? then Never
           else if |requests| <= 1 then At(s.now + config.executionTimeout.value)
           else At(s.now + config.executionTimeout.value * |requests|))
  {
    hide After;
    JobIsStarted(s, job, requests, w, config);
    var started := After(s, [ReserveRequests(job, requests), ReserveState(job)] + [Start(job), Spawn(w, job)], config).value;
    DeadlineIsSet(started, w, config);
    AfterAppend(s, [ReserveRequests(job, requests), ReserveState(job)] + [Start(job), Spawn(w, job)],
                [ClaimForDeadline(w), StoreDeadline(w)] + [LeaveClaim(w)], config);
  }

  // A worker that finds the deadline stored takes that one and goes on to the claim loop.
  lemma StoredDeadlineIsLoaded(s: System, job: JobId, w: WorkerId, config: Config)
    requires w !in s.workers && job in s.registry.deadlines
    ensures After(s, [Spawn(w, job), LoadDeadline(w)], config)
         == Some(s.(workers := s.workers[w := Worker(job, Ready, Some(s.registry.deadlines[job]))]))
  {
    hide After, Classify, Publish, MarkRunning, Acquire, Extend, Release, SetDeadlineIfAbsent, NewDeadline;
    AfterTwo(s, Spawn(w, job), LoadDeadline(w), config);
    var spawned, loaded := Worker(job, NeedDeadline, None), Worker(job, Ready, Some(s.registry.deadlines[job]));
    assert s.workers[w := spawned][w := loaded] == s.workers[w := loaded];
  }

  // A claim on a job that someone holds is refused: nothing changes and the worker stays where
  // it was, whichever claim it asked for.
  lemma RefusedClaimWaits(s: System, e: Event, config: Config)
    requires Enabled(s, e) && (e.ClaimForDeadline? || e.ClaimJob? || e.ClaimExpired?)
    requires LockHolder(s.registry, s.workers[e.w].job, s.now).Some?
    ensures Apply(s, e, config) == s.(nextToken := s.nextToken + 1)
  {
    hide Classify, Publish, MarkRunning, Extend, Release, SetDeadlineIfAbsent, NewDeadline;
    assert s.workers[e.w := s.workers[e.w]] == s.workers;
  }

  // The holder's renewal makes its claim last from now on.
  lemma RenewalProlongs(s: System, e: Event, config: Config)
    requires Enabled(s, e) && e.Renew?
    requires LockHolder(s.registry, s.workers[e.w].job, s.now) == TokenOf(s.workers[e.w].phase)
    ensures Lookup(Apply(s, e, config).registry.leases, s.workers[e.w].job)
         == Some(Lease(TokenOf(s.workers[e.w].phase).value, s.now + e.ttl))
    ensures Apply(s, e, config).workers == s.workers
  {
    hide Classify, Publish, MarkRunning, Acquire, Release, SetDeadlineIfAbsent, NewDeadline;
    assert s.workers[e.w := s.workers[e.w]] == s.workers;
  }

  // A run that is abandoned under its claim leaves the job as it was and gives the lock back.
  lemma AbandonedRunKeepsJob(s: System, w: WorkerId, token: Token, config: Config)
    requires w in s.workers && TokenOf(s.workers[w].phase) == Some(token) && s.workers[w].deadline.Some?
    requires LockHolder(s.registry, s.workers[w].job, s.now) == Some(token)
    ensures After(s, [Abandon(w)] + [LeaveClaim(w)], config) == Some(s.(
      workers := s.workers[w := s.workers[w].(phase := Ready)],
      registry := s.registry.(leases := s.registry.leases - {s.workers[w].job})))
  {
    hide After, Classify, Publish, MarkRunning, Acquire, Extend, Release, SetDeadlineIfAbsent, NewDeadline;
    AfterOne(s, Abandon(w), config);
    var leaving := Apply(s, Abandon(w), config);
    assert leaving == s.(workers := s.workers[w := s.workers[w].(phase := Leaving(token, true))]);
    LeaveStep(leaving, w, token, config);
    AfterAppend(s, [Abandon(w)], [LeaveClaim(w)], config);
    assert leaving.workers[w := leaving.workers[w].(phase := Ready)] == s.workers[w := s.workers[w].(phase := Ready)];
  }

  // When the reply to a publication is lost, the failure that the worker then tries to store is
  // refused: the outcome stays as it was published.
  lemma LostReplyKeepsOutcome(s: System, w: WorkerId, errorType: string, config: Config)
    requires w in s.workers && s.workers[w].phase.Publishing?
    requires LockHolder(s.registry, s.workers[w].job, s.now) == Some(s.workers[w].phase.token)
    requires IsPending(s.registry, s.workers[w].job)
    ensures After(s, [PublishOutcome(w, true, errorType), PublishOutcome(w, false, "")], config) == Some(s.(
      workers := s.workers[w := s.workers[w].(phase := Leaving(s.workers[w].phase.token, true))],
      registry := WithTerminal(s.registry, s.workers[w].job, s.workers[w].phase.terminal)))
  {
    hide After, Classify, MarkRunning, Acquire, Extend, Release, SetDeadlineIfAbsent, NewDeadline;
    var first := Apply(s, PublishOutcome(w, true, errorType), config);
    assert first.registry == WithTerminal(s.registry, s.workers[w].job, s.workers[w].phase.terminal);
    var second := Apply(first, PublishOutcome(w, false, ""), config);
    assert second.workers == s.workers[w := s.workers[w].(phase := Leaving(s.workers[w].phase.token, true))];
    AfterTwo(s, PublishOutcome(w, true, errorType), PublishOutcome(w, false, ""), config);
  }

  // ----- start() as the two steps it really is -----------------------------------------------

  // The second half of start(), after the state was read as "reserved" some time before.
  function StartSet(r: Registry, job: JobId): Registry {
    r.(states := r.states[job := Queued])
  }

  // Done apart from its check, the write is harmless exactly when the job has not become
  // terminal in between.
  lemma SplitStartIsSafeIff(r: Registry, job: JobId)
    requires RegistryOk(r) && job in r.states
    ensures RegistryOk(StartSet(r, job)) && Evolves(r, StartSet(r, job)) <==> !IsTerminal(r.states[job])
  {
    if !IsTerminal(r.states[job]) {
      NewStateIsSafe(r, job, Queued);
    } else {
      assert !RowEvolves(r, StartSet(r, job), job);
    }
  }

  // A cancellation between check and write is undone: the job runs with a cancellation on file.
  lemma SplitStartRevivesCancelledJob(r: Registry, job: JobId, reason: string)
    requires RegistryOk(r) && job in r.states && r.states[job] == Reserved
    ensures var cancelled := JobRegistry.Cancel(r, job, reason);
      && cancelled.1 && cancelled.0.states[job] == Status.Cancelled
      && IsPending(StartSet(cancelled.0, job), job) && job in StartSet(cancelled.0, job).cancellations
      && !JobOk(StartSet(cancelled.0, job), job)
  {
  }
}
