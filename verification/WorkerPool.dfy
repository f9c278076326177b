// The daemon worker pool of the provider embedding backend
// (contextual_orchestrator/batch_routing.py, _DaemonWorkerPool), step by step.

module WorkerPool {
  import opened Prelude

  datatype Item = Task(id: nat) | Stop

  datatype Worker = Waiting | Running(id: nat) | Exited

  // How far the first shutdown call has come; later calls change nothing.
  datatype Shutter = NotCalled | Draining | Posting(left: nat)

  // `submitting` is the part of submit() between queuing the task and starting a worker,
  // which runs under the pool lock. Tasks are numbered in order of acceptance.
  datatype Pool = Pool(
    queue: seq<Item>, workers: seq<Worker>, shutter: Shutter, cancelFutures: bool, submitting: bool,
    accepted: nat, finished: seq<nat>, cancelled: seq<nat>)

  datatype Event =
    | Put                    // submit(): the task enters the queue
    | Spawn                  // submit(): one more worker unless the pool is full
    | Close(cancel: bool)    // shutdown(): admission closes, the worker list is captured
    | Drain                  // shutdown(cancel_futures): one queued item is dropped
    | DrainEmpty             // shutdown(cancel_futures): the queue was found empty
    | PostStop               // shutdown(): one sentinel is queued
    | Take(w: nat)           // a worker receives the head of the queue
    | Finish(w: nat)         // a worker's task returns or raises

  const INITIAL := Pool([], [], NotCalled, false, false, 0, [], [])

  predicate IsShutdown(p: Pool) { p.shutter != NotCalled }

  predicate Enabled(p: Pool, e: Event) {
    match e
    case Put => !p.submitting && !IsShutdown(p)
    case Spawn => p.submitting
    case Close(_) => !p.submitting
    case Drain => p.shutter == Draining && p.queue != []
    case DrainEmpty => p.shutter == Draining && p.queue == []
    case PostStop => p.shutter.Posting? && p.shutter.left > 0
    case Take(w) => w < |p.workers| && p.workers[w] == Waiting && p.queue != []
    case Finish(w) => w < |p.workers| && p.workers[w].Running?
  }

  function Apply(p: Pool, e: Event, maxWorkers: nat): Pool
    requires Enabled(p, e)
  {
    match e
    case Put => p.(queue := p.queue + [Task(p.accepted)], accepted := p.accepted + 1, submitting := true)
    case Spawn =>
      p.(submitting := false, workers := if |p.workers| < maxWorkers then p.workers + [Waiting] else p.workers)
    case Close(cancel) =>
      if IsShutdown(p) then p
      else p.(shutter := if cancel then Draining else Posting(|p.workers|), cancelFutures := cancel)
    case Drain =>
      p.(queue := p.queue[1..], cancelled := p.cancelled + (if p.queue[0].Task? then [p.queue[0].id] else []))
    case DrainEmpty => p.(shutter := Posting(|p.workers|))
    case PostStop => p.(queue := p.queue + [Stop], shutter := Posting(p.shutter.left - 1))
    case Take(w) =>
      p.(queue := p.queue[1..],
         workers := p.workers[w := if p.queue[0].Stop? then Exited else Running(p.queue[0].id)])
    case Finish(w) =>
      p.(workers := p.workers[w := Waiting], finished := p.finished + [p.workers[w].id])
  }

  // ----- where the tasks are ----------------------------------------------------------

  function One(b: bool): nat { if b then 1 else 0 }

  // How often task `id` occurs in the queue, among running workers, and in a finished list.
  function Queued(queue: seq<Item>, id: nat): nat {
    if queue == [] then 0 else One(queue[0] == Task(id)) + Queued(queue[1..], id)
  }

  function InProgress(workers: seq<Worker>, id: nat): nat {
    if workers == [] then 0 else One(workers[0] == Running(id)) + InProgress(workers[1..], id)
  }

  function Times(ids: seq<nat>, id: nat): nat {
    if ids == [] then 0 else One(ids[0] == id) + Times(ids[1..], id)
  }

  function Stops(queue: seq<Item>): nat {
    if queue == [] then 0 else One(queue[0].Stop?) + Stops(queue[1..])
  }

  function ExitedCount(workers: seq<Worker>): nat {
    if workers == [] then 0 else One(workers[0].Exited?) + ExitedCount(workers[1..])
  }

  function Unposted(p: Pool): nat {
    match p.shutter
    case NotCalled => 0
    case Draining => |p.workers|
    case Posting(left) => left
  }

  ghost predicate NoTaskBehindStop(queue: seq<Item>) {
    forall i, j :: 0 <= i < j < |queue| && queue[i].Stop? ==> queue[j].Stop?
  }

  ghost predicate OnlyStops(queue: seq<Item>) {
    forall i :: 0 <= i < |queue| ==> queue[i].Stop?
  }

  function Places(p: Pool, id: nat): nat {
    Queued(p.queue, id) + InProgress(p.workers, id) + Times(p.finished, id) + Times(p.cancelled, id)
  }

  // Every accepted task is in exactly one place, exactly once, and no other task anywhere.
  ghost predicate Conserved(p: Pool) {
    forall id: nat :: Places(p, id) == One(id < p.accepted)
  }

  ghost predicate Inv(p: Pool, maxWorkers: nat) {
    && Conserved(p)
    && |p.workers| <= maxWorkers
    && NoTaskBehindStop(p.queue)
    && (p.submitting ==> !IsShutdown(p))
    && (p.accepted > 0 && p.workers == [] ==> p.submitting)
    && (IsShutdown(p) ==> Stops(p.queue) + ExitedCount(p.workers) + Unposted(p) == |p.workers|)
    && (!IsShutdown(p) ==> Stops(p.queue) == 0 && ExitedCount(p.workers) == 0 && p.cancelled == [])
    && (ExitedCount(p.workers) > 0 ==> OnlyStops(p.queue))
    && (!p.cancelFutures ==> p.cancelled == [] && p.shutter != Draining)
  }

  // ----- counting lemmas ---------------------------------------------------------------

  lemma {:induction false} QueueSnoc(queue: seq<Item>, x: Item, id: nat)
    ensures Queued(queue + [x], id) == Queued(queue, id) + One(x == Task(id))
    ensures Stops(queue + [x]) == Stops(queue) + One(x.Stop?)
  {
    if queue == [] {
      assert queue + [x] == [x];
    } else {
      assert (queue + [x])[1..] == queue[1..] + [x];
      QueueSnoc(queue[1..], x, id);
    }
  }

  lemma {:induction false} TimesSnoc(ids: seq<nat>, x: nat, id: nat)
    ensures Times(ids + [x], id) == Times(ids, id) + One(x == id)
  {
    if ids == [] {
      assert ids + [x] == [x];
    } else {
      assert (ids + [x])[1..] == ids[1..] + [x];
      TimesSnoc(ids[1..], x, id);
    }
  }

  lemma {:induction false} WorkerSnoc(workers: seq<Worker>, id: nat)
    ensures InProgress(workers + [Waiting], id) == InProgress(workers, id)
    ensures ExitedCount(workers + [Waiting]) == ExitedCount(workers)
  {
    if workers == [] {
      assert workers + [Waiting] == [Waiting];
    } else {
      assert (workers + [Waiting])[1..] == workers[1..] + [Waiting];
      WorkerSnoc(workers[1..], id);
    }
  }

  lemma {:induction false} WorkerUpdate(workers: seq<Worker>, w: nat, x: Worker, id: nat)
    requires w < |workers|
    ensures InProgress(workers[w := x], id) + One(workers[w] == Running(id)) == InProgress(workers, id) + One(x == Running(id))
    ensures ExitedCount(workers[w := x]) + One(workers[w].Exited?) == ExitedCount(workers) + One(x.Exited?)
  {
    var changed := workers[w := x];
    if w == 0 {
      assert changed[1..] == workers[1..];
    } else {
      WorkerUpdate(workers[1..], w - 1, x, id);
      assert changed[1..] == workers[1..][w - 1 := x];
    }
  }

  lemma {:induction false} ExitedBound(workers: seq<Worker>)
    ensures ExitedCount(workers) <= |workers|
    ensures (forall w :: 0 <= w < |workers| ==> workers[w] == Exited) ==> ExitedCount(workers) == |workers|
  {
    if workers != [] { ExitedBound(workers[1..]); }
  }

  lemma {:induction false} QueueFacts(queue: seq<Item>)
    ensures Stops(queue) <= |queue|
    ensures Stops(queue) == 0 && OnlyStops(queue) ==> queue == []
    ensures Stops(queue) == 0 ==> forall i :: 0 <= i < |queue| ==> queue[i].Task?
  {
    if queue != [] {
      QueueFacts(queue[1..]);
      if Stops(queue) == 0 {
        forall i | 0 <= i < |queue| ensures queue[i].Task? {
          if i > 0 { assert queue[1..][i - 1].Task?; }
        }
      }
    }
  }

  lemma QueuedTaskCounts(queue: seq<Item>, i: nat)
    requires i < |queue| && queue[i].Task?
    ensures Queued(queue, queue[i].id) > 0
  {
    if i > 0 { QueuedTaskCounts(queue[1..], i - 1); }
  }

  // ----- every step keeps the invariant -----------------------------------------------------

  lemma StepConserves(p: Pool, e: Event, maxWorkers: nat)
    requires Conserved(p) && Enabled(p, e)
    requires e == Drain ==> p.queue[0].Task?
    ensures Conserved(Apply(p, e, maxWorkers))
  {
    hide Queued, InProgress, Times;
    var q := Apply(p, e, maxWorkers);
    forall id: nat ensures Places(q, id) == One(id < q.accepted) {
      assert Places(p, id) == One(id < p.accepted);
      match e
      case Put => QueueSnoc(p.queue, Task(p.accepted), id);
      case Spawn => WorkerSnoc(p.workers, id);
      case Close(_) =>
      case Drain =>
        HeadTaken(p.queue, id);
        TimesSnoc(p.cancelled, p.queue[0].id, id);
      case DrainEmpty =>
      case PostStop => QueueSnoc(p.queue, Stop, id);
      case Take(w) =>
        HeadTaken(p.queue, id);
        WorkerUpdate(p.workers, w, q.workers[w], id);
      case Finish(w) =>
        WorkerUpdate(p.workers, w, Waiting, id);
        TimesSnoc(p.finished, p.workers[w].id, id);
    }
  }

  lemma HeadTaken(queue: seq<Item>, id: nat)
    requires queue != []
    ensures Queued(queue, id) == One(queue[0] == Task(id)) + Queued(queue[1..], id)
    ensures Stops(queue) == One(queue[0].Stop?) + Stops(queue[1..])
  {
  }

  lemma StepKeepsInv(p: Pool, e: Event, maxWorkers: nat)
    requires Inv(p, maxWorkers) && Enabled(p, e) && maxWorkers >= 1
    ensures Inv(Apply(p, e, maxWorkers), maxWorkers)
  {
    hide Queued, InProgress, Times, Stops, ExitedCount, Conserved;
    if e == Drain { HeadTaken(p.queue, 0); }
    StepConserves(p, e, maxWorkers);
    match e
    case Put =>
      QueueSnoc(p.queue, Task(p.accepted), 0);
      QueueFacts(p.queue);
    case Spawn =>
      WorkerSnoc(p.workers, 0);
      assert |Apply(p, e, maxWorkers).workers| > 0;
    case Close(_) =>
    case Drain =>
      HeadTaken(p.queue, 0);
      ExitedBound(p.workers);
    case DrainEmpty =>
    case PostStop => QueueSnoc(p.queue, Stop, 0);
    case Take(w) =>
      HeadTaken(p.queue, 0);
      WorkerUpdate(p.workers, w, if p.queue[0].Stop? then Exited else Running(p.queue[0].id), 0);
    case Finish(w) => WorkerUpdate(p.workers, w, Waiting, 0);
  }

  // A run: each pool follows from the one before it by one enabled event.
  ghost predicate Run(pools: seq<Pool>, events: seq<Event>, maxWorkers: nat) {
    && |pools| == |events| + 1
    && pools[0] == INITIAL
    && forall i :: 0 <= i < |events| ==> Enabled(pools[i], events[i]) && pools[i + 1] == Apply(pools[i], events[i], maxWorkers)
  }

  // Along every run: each task number below `accepted` is queued, running, finished or
  // cancelled exactly once, the pool stays within its bound, and no task is behind a sentinel.
  lemma {:induction false} EveryRunKeepsInv(pools: seq<Pool>, events: seq<Event>, maxWorkers: nat, k: nat)
    requires Run(pools, events, maxWorkers) && maxWorkers >= 1 && k < |pools|
    ensures Inv(pools[k], maxWorkers)
  {
    if k > 0 {
      EveryRunKeepsInv(pools, events, maxWorkers, k - 1);
      StepKeepsInv(pools[k - 1], events[k - 1], maxWorkers);
    }
  }

  // Once shut down with every worker gone, nothing is left behind: every accepted task was
  // finished or cancelled, once; and without cancel_futures every one of them has run.
  lemma NothingLeftAfterShutdown(pools: seq<Pool>, events: seq<Event>, maxWorkers: nat, k: nat, id: nat)
    requires Run(pools, events, maxWorkers) && maxWorkers >= 1 && k < |pools|
    requires IsShutdown(pools[k]) && forall w :: 0 <= w < |pools[k].workers| ==> pools[k].workers[w] == Exited
    ensures pools[k].queue == []
    ensures multiset(pools[k].finished)[id] + multiset(pools[k].cancelled)[id] == if id < pools[k].accepted then 1 else 0
    ensures !pools[k].cancelFutures ==> multiset(pools[k].finished)[id] == if id < pools[k].accepted then 1 else 0
  {
    TimesIsMultiplicity(pools[k].finished, id);
    TimesIsMultiplicity(pools[k].cancelled, id);
    var p := pools[k];
    EveryRunKeepsInv(pools, events, maxWorkers, k);
    ExitedBound(p.workers);
    QueueFacts(p.queue);
    NobodyInProgress(p.workers, id);
    if p.workers == [] && p.queue != [] {
      var places := Places(p, p.queue[0].id);
      QueuedTaskCounts(p.queue, 0);
      assert false;
    }
    assert Places(p, id) == One(id < p.accepted);
  }

  lemma {:induction false} TimesIsMultiplicity(ids: seq<nat>, id: nat)
    ensures Times(ids, id) == multiset(ids)[id]
  {
    if ids != [] {
      assert ids == [ids[0]] + ids[1..];
      TimesIsMultiplicity(ids[1..], id);
    }
  }

  lemma {:induction false} NobodyInProgress(workers: seq<Worker>, id: nat)
    requires forall w :: 0 <= w < |workers| ==> workers[w] == Exited
    ensures InProgress(workers, id) == 0
  {
    if workers != [] { NobodyInProgress(workers[1..], id); }
  }

  // ----- a shut-down pool comes to rest ----------------------------------------------------

  lemma {:induction false} SomebodyLeft(workers: seq<Worker>, w: nat)
    requires w < |workers| && workers[w] != Exited
    ensures ExitedCount(workers) < |workers|
  {
    ExitedBound(workers[1..]);
    if w > 0 { SomebodyLeft(workers[1..], w - 1); }
  }

  // With all sentinels posted, every worker that has not exited can finish its task or receive
  // the next item: there is a sentinel for each of them.
  lemma NobodyIsStranded(pools: seq<Pool>, events: seq<Event>, maxWorkers: nat, k: nat, w: nat)
    requires Run(pools, events, maxWorkers) && maxWorkers >= 1 && k < |pools|
    requires pools[k].shutter == Posting(0) && w < |pools[k].workers| && pools[k].workers[w] != Exited
    ensures if pools[k].workers[w].Running? then Enabled(pools[k], Finish(w)) else Enabled(pools[k], Take(w))
    ensures Stops(pools[k].queue) == |pools[k].workers| - ExitedCount(pools[k].workers) > 0
  {
    EveryRunKeepsInv(pools, events, maxWorkers, k);
    SomebodyLeft(pools[k].workers, w);
  }

  function RunningCount(workers: seq<Worker>): nat {
    if workers == [] then 0 else One(workers[0].Running?) + RunningCount(workers[1..])
  }

  lemma {:induction false} RunningUpdate(workers: seq<Worker>, w: nat, x: Worker)
    requires w < |workers|
    ensures RunningCount(workers[w := x]) + One(workers[w].Running?) == RunningCount(workers) + One(x.Running?)
  {
    if w == 0 {
      assert workers[w := x][1..] == workers[1..];
    } else {
      RunningUpdate(workers[1..], w - 1, x);
      assert workers[w := x][1..] == workers[1..][w - 1 := x];
    }
  }

  // And only so many steps are left: a closed pool accepts nothing, and each item in the queue
  // is received once.
  lemma ClosedPoolRunsOut(p: Pool, e: Event, maxWorkers: nat)
    requires Inv(p, maxWorkers) && p.shutter == Posting(0) && Enabled(p, e)
    ensures e.Take? || e.Finish? || (e.Close? && Apply(p, e, maxWorkers) == p)
    ensures !e.Close? ==>
      2 * |Apply(p, e, maxWorkers).queue| + RunningCount(Apply(p, e, maxWorkers).workers) < 2 * |p.queue| + RunningCount(p.workers)
    ensures e.Take? && p.queue[0].Task? ==> Apply(p, e, maxWorkers).workers[e.w] == Running(p.queue[0].id)
    ensures e.Take? && p.queue[0].Stop? ==> Apply(p, e, maxWorkers).workers[e.w] == Exited
    ensures e.Finish? ==> Apply(p, e, maxWorkers).finished == p.finished + [p.workers[e.w].id]
  {
    hide Conserved;
    match e
    case Take(w) => RunningUpdate(p.workers, w, Apply(p, e, maxWorkers).workers[w]);
    case Finish(w) => RunningUpdate(p.workers, w, Waiting);
    case _ =>
  }

  // ----- the pool object -------------------------------------------------------------------

  // The numbers of the queued tasks, in order.
  function TaskIds(queue: seq<Item>): (ids: seq<nat>)
    ensures (forall i :: 0 <= i < |queue| ==> queue[i].Task?) ==> |ids| == |queue| && forall i :: 0 <= i < |ids| ==> ids[i] == queue[i].id
  {
    if queue == [] then [] else (if queue[0].Task? then [queue[0].id] else []) + TaskIds(queue[1..])
  }

  // The rest of a shutdown that is draining, and of one that is posting sentinels.
  function DrainAll(p: Pool, maxWorkers: nat): (r: Pool)
    requires p.shutter == Draining
    ensures r.shutter == Posting(|r.workers|) && r.workers == p.workers
    decreases |p.queue|
  {
    if p.queue == [] then Apply(p, DrainEmpty, maxWorkers) else DrainAll(Apply(p, Drain, maxWorkers), maxWorkers)
  }

  function PostAll(p: Pool, maxWorkers: nat): Pool
    requires p.shutter.Posting?
    decreases p.shutter.left
  {
    if p.shutter.left == 0 then p else PostAll(Apply(p, PostStop, maxWorkers), maxWorkers)
  }

  lemma HeadDropped(cancelled: seq<nat>, queue: seq<Item>)
    requires queue != []
    ensures cancelled + (if queue[0].Task? then [queue[0].id] else []) + TaskIds(queue[1..]) == cancelled + TaskIds(queue)
  {
    var first := if queue[0].Task? then [queue[0].id] else [];
    assert TaskIds(queue) == first + TaskIds(queue[1..]);
  }

  // Run to the end, the two loops empty the queue and append one sentinel per captured worker.
  lemma {:induction false} DrainAllDropsQueue(p: Pool, maxWorkers: nat)
    requires p.shutter == Draining
    ensures DrainAll(p, maxWorkers)
         == p.(queue := [], shutter := Posting(|p.workers|), cancelled := p.cancelled + TaskIds(p.queue))
    decreases |p.queue|
  {
    if p.queue != [] {
      hide TaskIds;
      var next := Apply(p, Drain, maxWorkers);
      DrainAllDropsQueue(next, maxWorkers);
      HeadDropped(p.cancelled, p.queue);
    }
  }

  lemma {:induction false} PostAllAddsStops(p: Pool, maxWorkers: nat)
    requires p.shutter.Posting?
    ensures PostAll(p, maxWorkers) == p.(queue := p.queue + seq(p.shutter.left, _ => Stop), shutter := Posting(0))
    decreases p.shutter.left
  {
    if p.shutter.left > 0 { PostAllAddsStops(Apply(p, PostStop, maxWorkers), maxWorkers); }
  }

  // One caller's view of the object: its methods are the same events, run back to back.
  class DaemonWorkerPool {
    const maxWorkers: nat
    var queue: seq<Item>
    var workers: seq<Worker>
    var shutter: Shutter
    var cancelFutures: bool
    var submitting: bool
    var accepted: nat
    var finished: seq<nat>
    var cancelled: seq<nat>

    function View(): Pool
      reads this
    {
      Pool(queue, workers, shutter, cancelFutures, submitting, accepted, finished, cancelled)
    }

    constructor (maxWorkers: nat)
      ensures View() == INITIAL && this.maxWorkers == maxWorkers
    {
      this.maxWorkers := maxWorkers;
      queue, workers, shutter, cancelFutures := [], [], NotCalled, false;
      submitting, accepted, finished, cancelled := false, 0, [], [];
    }

    // False stands for the RuntimeError a closed pool raises.
    method Submit() returns (ok: bool)
      requires !submitting
      modifies this
      ensures ok <==> old(shutter) == NotCalled
      ensures ok ==> accepted == old(accepted) + 1 && queue == old(queue) + [Task(old(accepted))]
      ensures ok ==> workers == old(workers) + (if |old(workers)| < maxWorkers then [Waiting] else [])
      ensures View() == if ok then Apply(Apply(old(View()), Put, maxWorkers), Spawn, maxWorkers) else old(View())
    {
      if shutter != NotCalled { return false; }
      queue, accepted := queue + [Task(accepted)], accepted + 1;
      if |workers| < maxWorkers {
        workers := workers + [Waiting];
      }
      return true;
    }

    // A later call changes nothing. The first drops what is queued if asked to, and queues one
    // sentinel for every worker.
    method Shutdown(cancel: bool)
      requires !submitting
      modifies this`queue, this`shutter, this`cancelFutures, this`cancelled
      ensures old(shutter) != NotCalled ==> View() == old(View())
      ensures old(shutter) == NotCalled ==> shutter == Posting(0) && cancelFutures == cancel
      ensures old(shutter) == NotCalled ==> queue == (if cancel then [] else old(queue)) + seq(|workers|, _ => Stop)
      ensures old(shutter) == NotCalled ==> cancelled == old(cancelled) + (if cancel then TaskIds(old(queue)) else [])
      ensures old(shutter) == NotCalled ==>
        var closed := Apply(old(View()), Close(cancel), maxWorkers);
        View() == PostAll(if cancel then DrainAll(closed, maxWorkers) else closed, maxWorkers)
    {
      if shutter != NotCalled { return; }
      shutter, cancelFutures := if cancel then Draining else Posting(|workers|), cancel;
      if cancel { DropQueued(); }
      PostSentinels();
    }

    method DropQueued()
      requires shutter == Draining
      modifies this`queue, this`shutter, this`cancelled
      ensures View() == DrainAll(old(View()), maxWorkers)
      ensures queue == [] && shutter == Posting(|workers|) && cancelled == old(cancelled) + TaskIds(old(queue))
    {
      DrainAllDropsQueue(View(), maxWorkers);
      while queue != []
        invariant shutter == Draining
        invariant cancelled + TaskIds(queue) == old(cancelled) + TaskIds(old(queue))
        decreases |queue|
      {
        if queue[0].Task? { cancelled := cancelled + [queue[0].id]; }
        queue := queue[1..];
      }
      shutter := Posting(|workers|);
    }

    method PostSentinels()
      requires shutter == Posting(|workers|)
      modifies this`queue, this`shutter
      ensures View() == PostAll(old(View()), maxWorkers)
      ensures shutter == Posting(0) && queue == old(queue) + seq(|workers|, _ => Stop)
    {
      PostAllAddsStops(View(), maxWorkers);
      for n := 0 to |workers|
        invariant workers == old(workers) && shutter == Posting(|workers| - n)
        invariant queue == old(queue) + seq(n, _ => Stop)
      {
        queue := queue + [Stop];
        shutter := Posting(shutter.left - 1);
      }
    }

    // A worker's loop: it receives the head of the queue, runs a task to its end, and leaves
    // at a sentinel.
    method TakeNext(w: nat)
      requires w < |workers| && workers[w] == Waiting && queue != []
      modifies this`queue, this`workers
      ensures View() == Apply(old(View()), Take(w), maxWorkers)
      ensures |workers| == |old(workers)| && queue == old(queue)[1..]
      ensures workers[w] == match old(queue)[0] case Task(id) => Running(id) case Stop => Exited
      ensures forall v :: 0 <= v < |workers| && v != w ==> workers[v] == old(workers)[v]
    {
      workers := workers[w := match queue[0] case Task(id) => Running(id) case Stop => Exited];
      queue := queue[1..];
    }

    method FinishTask(w: nat)
      requires w < |workers| && workers[w].Running?
      modifies this`workers, this`finished
      ensures View() == Apply(old(View()), Finish(w), maxWorkers)
      ensures workers == old(workers)[w := Waiting] && finished == old(finished) + [old(workers)[w].id]
    {
      workers, finished := workers[w := Waiting], finished + [workers[w].id];
    }
  }
}
