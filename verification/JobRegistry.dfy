// The durable registry of provider embedding jobs and its atomic scripts
// (contextual_orchestrator/batch_job_registry.py).

module JobRegistry {
  import opened Prelude

  type JobId = string
  type Token = nat

  datatype Status = Reserved | Queued | Running | Completed | Failed | Cancelled

  datatype EmbeddingRequest = EmbeddingRequest(customId: string, inputText: string, model: string)

  datatype ResultItem = ResultItem(customId: string, index: nat, embedding: seq<real>, model: string)

  datatype JobError = DeadlineExceeded | Raised(errorType: string)

  // What one publication writes beside the status.
  datatype Terminal =
    | Done(results: seq<ResultItem>, promptTokens: int)
    | Fail(error: JobError)

  // A lock value with the time at which it lapses.
  datatype Lease = Lease(token: Token, expiresAt: nat)

  datatype Deadline = Never | At(time: nat)

  // One field per Valkey hash, plus the execution locks.
  datatype Registry = Registry(
    states: map<JobId, Status>,
    requests: map<JobId, seq<EmbeddingRequest>>,
    results: map<JobId, seq<ResultItem>>,
    usage: map<JobId, int>,
    errors: map<JobId, JobError>,
    cancellations: map<JobId, string>,
    deadlines: map<JobId, Deadline>,
    leases: map<JobId, Lease>)

  const EMPTY := Registry(map[], map[], map[], map[], map[], map[], map[], map[])

  predicate IsTerminal(s: Status) { s.Completed? || s.Failed? || s.Cancelled? }

  predicate IsPending(r: Registry, job: JobId) {
    job in r.states && (r.states[job] == Queued || r.states[job] == Running)
  }

  function LockHolder(r: Registry, job: JobId, now: nat): Option<Token> {
    if job in r.leases && now < r.leases[job].expiresAt then Some(r.leases[job].token) else None
  }

  function Lookup<V>(m: map<JobId, V>, job: JobId): Option<V> {
    if job in m then Some(m[job]) else None
  }

  // ----- the scripts and lock operations as functions --------------------------------

  function Publish(r: Registry, job: JobId, token: Token, now: nat, terminal: Terminal): (Registry, bool) {
    if LockHolder(r, job, now) != Some(token) then (r, false)
    else if !IsPending(r, job) then (r, false)
    else
      match terminal
      case Done(results, promptTokens) =>
        (r.(results := r.results[job := results], usage := r.usage[job := promptTokens],
            states := r.states[job := Completed]), true)
      case Fail(error) =>
        (r.(errors := r.errors[job := error], states := r.states[job := Failed]), true)
  }

  function MarkRunning(r: Registry, job: JobId, token: Token, now: nat): (Registry, bool) {
    if LockHolder(r, job, now) != Some(token) then (r, false)
    else if !IsPending(r, job) then (r, false)
    else (r.(states := r.states[job := Running]), true)
  }

  function Cancel(r: Registry, job: JobId, reason: string): (Registry, bool) {
    if job !in r.states || IsTerminal(r.states[job]) then (r, false)
    else (r.(cancellations := r.cancellations[job := reason], states := r.states[job := Cancelled]), true)
  }

  function SetDeadlineIfAbsent(r: Registry, job: JobId, deadline: Deadline): (Registry, bool) {
    if job in r.deadlines then (r, false) else (r.(deadlines := r.deadlines[job := deadline]), true)
  }

  function Acquire(r: Registry, job: JobId, token: Token, now: nat, ttl: nat): (Registry, bool) {
    if LockHolder(r, job, now).Some? then (r, false)
    else (r.(leases := r.leases[job := Lease(token, now + ttl)]), true)
  }

  function Extend(r: Registry, job: JobId, token: Token, now: nat, ttl: nat): (Registry, bool) {
    if LockHolder(r, job, now) != Some(token) then (r, false)
    else (r.(leases := r.leases[job := Lease(token, now + ttl)]), true)
  }

  function Release(r: Registry, job: JobId, token: Token, now: nat): (Registry, bool) {
    if LockHolder(r, job, now) != Some(token) then (r, false)
    else (r.(leases := r.leases - {job}), true)
  }

  // ----- the registry object ---------------------------------------------------------

  class JobRegistryFactory {
    var states: map<JobId, Status>
    var requests: map<JobId, seq<EmbeddingRequest>>
    var results: map<JobId, seq<ResultItem>>
    var usage: map<JobId, int>
    var errors: map<JobId, JobError>
    var cancellations: map<JobId, string>
    var deadlines: map<JobId, Deadline>
    var leases: map<JobId, Lease>

    function View(): Registry
      reads this
    {
      Registry(states, requests, results, usage, errors, cancellations, deadlines, leases)
    }

    constructor ()
      ensures View() == EMPTY
    {
      states, requests, results, usage := map[], map[], map[], map[];
      errors, cancellations, deadlines, leases := map[], map[], map[], map[];
    }

    // The token is the stored lock value and has not lapsed.
    method HolderIs(job: JobId, token: Token, now: nat) returns (held: bool)
      ensures held <==> job in leases && leases[job].token == token && now < leases[job].expiresAt
      ensures held <==> LockHolder(View(), job, now) == Some(token)
    {
      held := job in leases && now < leases[job].expiresAt && leases[job].token == token;
    }

    method PublishProviderEmbeddingTerminal(job: JobId, token: Token, now: nat, terminal: Terminal) returns (ok: bool)
      modifies this`states, this`results, this`usage, this`errors
      ensures (View(), ok) == Publish(old(View()), job, token, now, terminal)
      // accepted from the unexpired holder of a queued or running job, and refused without a trace
      ensures ok <==> job in leases && leases[job].token == token && now < leases[job].expiresAt
                      && job in old(states) && (old(states)[job] == Queued || old(states)[job] == Running)
      ensures !ok ==> View() == old(View())
      ensures states == if ok then old(states)[job := if terminal.Done? then Completed else Failed] else old(states)
      ensures results == if ok && terminal.Done? then old(results)[job := terminal.results] else old(results)
      ensures usage == if ok && terminal.Done? then old(usage)[job := terminal.promptTokens] else old(usage)
      ensures errors == if ok && terminal.Fail? then old(errors)[job := terminal.error] else old(errors)
    {
      var held := HolderIs(job, token, now);
      if !held { return false; }
      if job !in states || (states[job] != Running && states[job] != Queued) { return false; }
      match terminal {
        case Done(items, promptTokens) =>
          results := results[job := items];
          usage := usage[job := promptTokens];
          states := states[job := Completed];
        case Fail(error) =>
          errors := errors[job := error];
          states := states[job := Failed];
      }
      return true;
    }

    method MarkProviderEmbeddingRunning(job: JobId, token: Token, now: nat) returns (ok: bool)
      modifies this`states
      ensures (View(), ok) == MarkRunning(old(View()), job, token, now)
      ensures ok <==> job in leases && leases[job].token == token && now < leases[job].expiresAt
                      && job in old(states) && (old(states)[job] == Queued || old(states)[job] == Running)
      ensures states == if ok then old(states)[job := Running] else old(states)
    {
      var held := HolderIs(job, token, now);
      if !held { return false; }
      if job !in states || (states[job] != Queued && states[job] != Running) { return false; }
      states := states[job := Running];
      return true;
    }

    method CancelProviderEmbedding(job: JobId, reason: string) returns (ok: bool)
      modifies this`states, this`cancellations
      ensures (View(), ok) == Cancel(old(View()), job, reason)
      ensures ok <==> job in old(states) && old(states)[job] in {Reserved, Queued, Running}
      ensures states == if ok then old(states)[job := Cancelled] else old(states)
      ensures cancellations == if ok then old(cancellations)[job := reason] else old(cancellations)
    {
      if job !in states || (states[job] != Reserved && states[job] != Queued && states[job] != Running) { return false; }
      cancellations := cancellations[job := reason];
      states := states[job := Cancelled];
      return true;
    }

    method StoreDeadlineIfAbsent(job: JobId, deadline: Deadline) returns (created: bool)
      modifies this`deadlines
      ensures (View(), created) == SetDeadlineIfAbsent(old(View()), job, deadline)
      ensures created <==> job !in old(deadlines)
      ensures deadlines == if created then old(deadlines)[job := deadline] else old(deadlines)
    {
      if job in deadlines { return false; }
      deadlines := deadlines[job := deadline];
      return true;
    }

    // A claim is granted only where none is held, and then lasts its whole lease.
    method AcquireClaim(job: JobId, token: Token, now: nat, ttl: nat) returns (acquired: bool)
      modifies this`leases
      ensures (View(), acquired) == Acquire(old(View()), job, token, now, ttl)
      ensures acquired <==> LockHolder(old(View()), job, now) == None
      ensures acquired <==> job !in old(leases) || old(leases)[job].expiresAt <= now
      ensures !acquired ==> View() == old(View())
      ensures acquired ==> forall t: nat :: now <= t < now + ttl ==> LockHolder(View(), job, t) == Some(token)
      ensures acquired ==> job in leases && leases[job].expiresAt == now + ttl
      ensures leases - {job} == old(leases) - {job}
    {
      if job in leases && now < leases[job].expiresAt { return false; }
      leases := leases[job := Lease(token, now + ttl)];
      return true;
    }

    // Only the holder prolongs its claim, from now on.
    method ExtendClaim(job: JobId, token: Token, now: nat, ttl: nat) returns (retained: bool)
      modifies this`leases
      ensures (View(), retained) == Extend(old(View()), job, token, now, ttl)
      ensures retained <==> job in old(leases) && old(leases)[job].token == token && now < old(leases)[job].expiresAt
      ensures leases == if retained then old(leases)[job := Lease(token, now + ttl)] else old(leases)
    {
      retained := HolderIs(job, token, now);
      if retained { leases := leases[job := Lease(token, now + ttl)]; }
    }

    // Only the holder gives its claim up.
    method ReleaseClaim(job: JobId, token: Token, now: nat) returns (owned: bool)
      modifies this`leases
      ensures (View(), owned) == Release(old(View()), job, token, now)
      ensures owned <==> job in old(leases) && old(leases)[job].token == token && now < old(leases)[job].expiresAt
      ensures leases == if owned then old(leases) - {job} else old(leases)
    {
      owned := HolderIs(job, token, now);
      if owned { leases := leases - {job}; }
    }
  }

  // ----- the lock law ----------------------------------------------------------------------

  predicate SameLease(before: Registry, after: Registry, job: JobId) {
    Lookup(after.leases, job) == Lookup(before.leases, job)
  }

  // While a claim is held and has not lapsed, no call under another token, on this job or any
  // other, takes, prolongs or ends it; on this job none of them reports success.
  lemma HeldClaimWithstandsOthers(r: Registry, job: JobId, other: Token, target: JobId, now: nat, ttl: nat)
    requires job in r.leases && now < r.leases[job].expiresAt && other != r.leases[job].token
    ensures SameLease(r, Acquire(r, target, other, now, ttl).0, job)
    ensures SameLease(r, Extend(r, target, other, now, ttl).0, job)
    ensures SameLease(r, Release(r, target, other, now).0, job)
    ensures !Acquire(r, job, other, now, ttl).1 && !Extend(r, job, other, now, ttl).1 && !Release(r, job, other, now).1
  {
  }

  // ----- what a job's rows must look like ------------------------------------------------

  // One result per request, in order, with one common non-zero dimension.
  ghost predicate ResultsMatch(items: seq<ResultItem>, requests: seq<EmbeddingRequest>) {
    && |items| == |requests|
    && (forall i :: 0 <= i < |items| ==>
          && items[i].index == i && items[i].customId == requests[i].customId && items[i].model == requests[i].model
          && |items[i].embedding| == |items[0].embedding| && |items[i].embedding| > 0)
  }

  // Results and usage, an error, or a cancellation record: exactly the one the state calls for.
  ghost predicate JobOk(r: Registry, job: JobId) {
    && (job in r.results <==> job in r.states && r.states[job] == Completed)
    && (job in r.usage <==> job in r.states && r.states[job] == Completed)
    && (job in r.errors <==> job in r.states && r.states[job] == Failed)
    && (job in r.cancellations <==> job in r.states && r.states[job] == Cancelled)
    && (job in r.states ==> job in r.requests)
    && (job in r.results ==> ResultsMatch(r.results[job], r.requests[job]))
  }

  ghost predicate RegistryOk(r: Registry) {
    forall job: JobId :: JobOk(r, job)
  }

  // How one job's rows may change: never out of a terminal state, never a rewritten request
  // list or deadline.
  ghost predicate RowEvolves(before: Registry, after: Registry, job: JobId) {
    && (job in before.states ==> job in after.states)
    && (job in before.states && IsTerminal(before.states[job]) ==>
          && after.states[job] == before.states[job]
          && Lookup(after.results, job) == Lookup(before.results, job)
          && Lookup(after.usage, job) == Lookup(before.usage, job)
          && Lookup(after.errors, job) == Lookup(before.errors, job)
          && Lookup(after.cancellations, job) == Lookup(before.cancellations, job))
    && (job in before.requests ==> job in after.requests && after.requests[job] == before.requests[job])
    && (job in before.deadlines ==> job in after.deadlines && after.deadlines[job] == before.deadlines[job])
  }

  ghost predicate Evolves(before: Registry, after: Registry) {
    forall job: JobId :: RowEvolves(before, after, job)
  }

  // Everything a reader of the job can see: its state and its records.
  ghost predicate SameJobRows(before: Registry, after: Registry) {
    && after.states == before.states && after.results == before.results && after.usage == before.usage
    && after.errors == before.errors && after.cancellations == before.cancellations
  }

  lemma EvolvesTransitively(a: Registry, b: Registry, c: Registry)
    requires Evolves(a, b) && Evolves(b, c)
    ensures Evolves(a, c)
  {
    forall job: JobId ensures RowEvolves(a, c, job) {
      assert RowEvolves(a, b, job) && RowEvolves(b, c, job);
    }
  }

  // ----- every script keeps the rows in order ----------------------------------------------

  lemma PublishIsSafe(r: Registry, job: JobId, token: Token, now: nat, terminal: Terminal)
    requires RegistryOk(r)
    requires terminal.Done? && job in r.requests ==> ResultsMatch(terminal.results, r.requests[job])
    ensures RegistryOk(Publish(r, job, token, now, terminal).0)
    ensures Evolves(r, Publish(r, job, token, now, terminal).0)
    ensures LockHolder(r, job, now) != Some(token) ==> Publish(r, job, token, now, terminal) == (r, false)
  {
    var next := Publish(r, job, token, now, terminal).0;
    assert JobOk(r, job);
    forall j: JobId ensures JobOk(next, j) && RowEvolves(r, next, j) { assert JobOk(r, j); }
  }

  lemma MarkRunningIsSafe(r: Registry, job: JobId, token: Token, now: nat)
    requires RegistryOk(r)
    ensures RegistryOk(MarkRunning(r, job, token, now).0)
    ensures Evolves(r, MarkRunning(r, job, token, now).0)
    ensures LockHolder(r, job, now) != Some(token) ==> MarkRunning(r, job, token, now) == (r, false)
  {
    var next := MarkRunning(r, job, token, now).0;
    forall j: JobId ensures JobOk(next, j) && RowEvolves(r, next, j) { assert JobOk(r, j); }
  }

  lemma CancelIsSafe(r: Registry, job: JobId, reason: string)
    requires RegistryOk(r)
    ensures RegistryOk(Cancel(r, job, reason).0)
    ensures Evolves(r, Cancel(r, job, reason).0)
  {
    var next := Cancel(r, job, reason).0;
    assert JobOk(r, job);
    forall j: JobId ensures JobOk(next, j) && RowEvolves(r, next, j) { assert JobOk(r, j); }
  }

  // A change of deadlines and leases alone, adding deadlines only where there was none.
  lemma SideFieldsAreSafe(r: Registry, next: Registry)
    requires RegistryOk(r)
    requires SameJobRows(r, next) && next.requests == r.requests
    requires forall job :: job in r.deadlines ==> job in next.deadlines && next.deadlines[job] == r.deadlines[job]
    ensures RegistryOk(next) && Evolves(r, next)
  {
    forall j: JobId ensures JobOk(next, j) && RowEvolves(r, next, j) { assert JobOk(r, j); }
  }
}
