// Measured routing inside a model group: outcome counts, moving averages and minute windows
// (contextual_orchestrator/model_group.py, ModelGroupRouter). Times and latencies are reals.

module MeasuredRouter {
  import opened Prelude
  import opened StableSort

  const WINDOW := 60.0
  const UNOBSERVED_MEMBER_SCORE := 0.5

  datatype Member = Member(
    alpha: real, beta: real, priorAlpha: real, priorBeta: real, ewma: Option<real>, ewmaTps: Option<real>)

  datatype Observation = Observation(time: real, tokens: Option<nat>)

  // One completed attempt, as its caller reported it.
  datatype Attempt =
    | Failure
    | Success(time: real, latency: Option<real>, outputTokens: Option<nat>, totalTokens: Option<nat>)

  type Log = seq<Attempt>

  datatype Settings = Settings(gain: real, minLatency: real, priorResolver: Option<string -> (real, real)>)

  predicate SettingsOk(s: Settings) {
    0.0 < s.gain <= 1.0 && s.minLatency > 0.0
  }

  function ClampLatency(latency: real, floor: real): (clamped: real)
    ensures clamped >= floor && clamped >= latency && clamped in {floor, latency}
  {
    if latency < floor then floor else latency
  }

  // ----- what a history since the last reset amounts to ------------------------------------

  function Successes(log: Log): nat {
    if log == [] then 0 else Successes(log[..|log| - 1]) + if log[|log| - 1].Success? then 1 else 0
  }

  // Clamped latencies, in order.
  function Latencies(log: Log, floor: real): seq<real> {
    if log == [] then []
    else
      var rest, last := Latencies(log[..|log| - 1], floor), log[|log| - 1];
      if last.Success? && last.latency.Some? then rest + [ClampLatency(last.latency.value, floor)] else rest
  }

  // Tokens per second, where both a latency and a token count were reported.
  function Throughputs(log: Log, floor: real): seq<real>
    requires floor > 0.0
  {
    if log == [] then []
    else
      var rest, last := Throughputs(log[..|log| - 1], floor), log[|log| - 1];
      if last.Success? && last.latency.Some? && last.outputTokens.Some? then
        rest + [last.outputTokens.value as real / ClampLatency(last.latency.value, floor)]
      else rest
  }

  function Observations(log: Log): seq<Observation> {
    if log == [] then []
    else
      var rest, last := Observations(log[..|log| - 1]), log[|log| - 1];
      if last.Success? then rest + [Observation(last.time, last.totalTokens)] else rest
  }

  // The exponentially weighted moving average: the first sample, then one blend a sample.
  function Average(samples: seq<real>, gain: real): Option<real> {
    if samples == [] then None
    else Some(Blend(Average(samples[..|samples| - 1], gain), samples[|samples| - 1], gain))
  }

  function Blend(average: Option<real>, sample: real, gain: real): real {
    match average
    case None => sample
    case Some(value) => (1.0 - gain) * value + gain * sample
  }

  // The row a member holds, given its prior and everything observed since its last reset.
  function StateAfter(prior: (real, real), log: Log, s: Settings): Member
    requires SettingsOk(s)
  {
    var successes := Successes(log);
    Member(prior.0 + successes as real, prior.1 + (|log| - successes) as real, prior.0, prior.1,
           Average(Latencies(log, s.minLatency), s.gain), Average(Throughputs(log, s.minLatency), s.gain))
  }

  // ----- minute windows -----------------------------------------------------------------------

  function After(cutoff: real): Observation -> bool {
    (o: Observation) => o.time > cutoff
  }

  // The last sixty seconds of a history, seen from `now`.
  function Window(observed: seq<Observation>, now: real): seq<Observation> {
    Filter(After(now - WINDOW), observed)
  }

  type Weight = Observation -> nat

  function OfOne(): Weight { o => 1 }

  function OfTokens(): Weight {
    (o: Observation) => if o.tokens.Some? then o.tokens.value else 0
  }

  function Total(weight: Weight, observed: seq<Observation>): nat {
    if observed == [] then 0 else weight(observed[0]) + Total(weight, observed[1..])
  }

  // The heaviest of the windows that end at each observation in turn.
  function Peak(weight: Weight, observed: seq<Observation>): nat {
    if observed == [] then 0
    else
      var before, last := Peak(weight, observed[..|observed| - 1]), observed[|observed| - 1];
      var now := Total(weight, Window(observed, last.time));
      if before < now then now else before
  }

  ghost predicate TimeSorted(observed: seq<Observation>) {
    forall i, j :: 0 <= i < j < |observed| ==> observed[i].time <= observed[j].time
  }

  ghost predicate AllBy(observed: seq<Observation>, now: real) {
    forall i :: 0 <= i < |observed| ==> observed[i].time <= now
  }

  // Dropping stale observations from the left of a time-ordered deque filters it.
  method Prune(queue: seq<Observation>, now: real) returns (kept: seq<Observation>)
    requires TimeSorted(queue)
    ensures kept == Window(queue, now)
  {
    kept := queue;
    while kept != [] && kept[0].time <= now - WINDOW
      invariant TimeSorted(kept)
      invariant Window(kept, now) == Window(queue, now)
      decreases |kept|
    {
      kept := kept[1..];
    }
    FilterAll(After(now - WINDOW), kept);
  }

  method TokensIn(queue: seq<Observation>) returns (total: nat)
    ensures total == Total(OfTokens(), queue)
  {
    total := 0;
    for i := 0 to |queue|
      invariant total == Total(OfTokens(), queue[..i])
    {
      assert queue[..i + 1] == queue[..i] + [queue[i]];
      TotalAppend(OfTokens(), queue[..i], [queue[i]]);
      total := total + if queue[i].tokens.Some? then queue[i].tokens.value else 0;
    }
    assert queue[..|queue|] == queue;
  }

  // ----- scores -------------------------------------------------------------------------------

  datatype ScoreError = DivisionByZero

  function Score(state: Option<Member>, floor: real): Result<real, ScoreError>
    requires floor > 0.0
  {
    if state.None? then Ok(UNOBSERVED_MEMBER_SCORE)
    else
      var m := state.value;
      if m.alpha + m.beta == 0.0 then Err(DivisionByZero)
      else
        var stability := m.alpha / (m.alpha + m.beta);
        if m.ewma.None? then Ok(stability / 1.0) else Ok(stability / ClampLatency(m.ewma.value, floor))
  }

  function NotSlower(scores: map<string, real>): (string, string) -> bool {
    (a, b) => ScoreIn(scores, a) >= ScoreIn(scores, b)
  }

  function ScoreIn(scores: map<string, real>, id: string): real {
    if id in scores then scores[id] else 0.0
  }

  // ----- the router ---------------------------------------------------------------------------

  datatype ObserveError = NegativeLatency | BadOutputTokens | BadTotalTokens
  datatype PriorError = NegativePrior

  function CheckAttempt(latency: Option<real>, outputTokens: Option<int>, totalTokens: Option<int>): Option<ObserveError> {
    if latency.Some? && latency.value < 0.0 then Some(NegativeLatency)
    else if outputTokens.Some? && outputTokens.value <= 0 then Some(BadOutputTokens)
    else if totalTokens.Some? && totalTokens.value <= 0 then Some(BadTotalTokens)
    else None
  }

  // Everything kept about one member, with its history since the last reset.
  datatype Entry = Entry(row: Member, queue: seq<Observation>, rpm: nat, tpm: nat, log: Log)

  ghost predicate EntryOk(e: Entry, clock: real, s: Settings)
    requires SettingsOk(s)
  {
    && e.row == StateAfter((e.row.priorAlpha, e.row.priorBeta), e.log, s)
    && RatesOk(e.queue, e.rpm, e.tpm, Observations(e.log), clock)
  }

  ghost predicate RatesOk(queue: seq<Observation>, rpm: nat, tpm: nat, observed: seq<Observation>, clock: real) {
    && TimeSorted(observed) && AllBy(observed, clock)
    && queue == (if observed == [] then [] else Window(observed, observed[|observed| - 1].time))
    && rpm == Peak(OfOne(), observed)
    && tpm == Peak(OfTokens(), observed)
  }

  class ModelGroupRouter {
    const settings: Settings
    var members: map<string, Member>
    var minuteObservations: map<string, seq<Observation>>
    var maxObservedRpm: map<string, nat>
    var maxObservedTpm: map<string, nat>
    // Every attempt since the member's last reset, and the last reading of the clock.
    ghost var log: map<string, Log>
    ghost var clock: real

    function Queue(id: string): seq<Observation>
      reads this
    {
      if id in minuteObservations then minuteObservations[id] else []
    }

    function Rpm(id: string): nat
      reads this
    {
      if id in maxObservedRpm then maxObservedRpm[id] else 0
    }

    function Tpm(id: string): nat
      reads this
    {
      if id in maxObservedTpm then maxObservedTpm[id] else 0
    }

    ghost function LogOf(id: string): Log
      reads this
    {
      if id in log then log[id] else []
    }

    function BlankState(id: string): Member {
      var prior := if settings.priorResolver.Some? then (settings.priorResolver.value)(id) else (1.0, 1.0);
      Member(prior.0, prior.1, prior.0, prior.1, None, None)
    }

    function Row(id: string): Member
      reads this
    {
      if id in members then members[id] else BlankState(id)
    }

    // The prior a member has, or would start from.
    function PriorOf(id: string): (real, real)
      reads this
    {
      (Row(id).priorAlpha, Row(id).priorBeta)
    }

    ghost function EntryOf(id: string): Entry
      reads this
    {
      Entry(Row(id), Queue(id), Rpm(id), Tpm(id), LogOf(id))
    }

    ghost predicate Valid()
      reads this
    {
      && SettingsOk(settings)
      && log.Keys == members.Keys
      && forall id: string :: EntryOk(EntryOf(id), clock, settings)
    }

    constructor (settings: Settings)
      requires SettingsOk(settings)
      ensures Valid() && this.settings == settings && log == map[]
      // nobody is observed yet; a member starts from its resolved prior, or from one and one
      ensures members == map[] && forall x :: Queue(x) == [] && Rpm(x) == 0 && Tpm(x) == 0
      ensures forall x :: PriorOf(x) == if settings.priorResolver.Some? then (settings.priorResolver.value)(x) else (1.0, 1.0)
    {
      this.settings := settings;
      members, minuteObservations, maxObservedRpm, maxObservedTpm := map[], map[], map[], map[];
      log, clock := map[], 0.0;
    }

    method RegisterMember(id: string)
      requires Valid()
      modifies this
      ensures Valid() && members.Keys == old(members).Keys + {id} && clock == old(clock)
      ensures forall x :: EntryOf(x) == old(EntryOf(x))
    {
      hide EntryOk;
      if id !in members {
        members, log := members[id := BlankState(id)], log[id := []];
        assert forall x :: EntryOf(x) == old(EntryOf(x));
      }
    }

    // One dictionary entry each, for a member that is registered.
    method Store(id: string, m: Member, ghost attempts: Log)
      requires log.Keys == members.Keys && id in members
      modifies this`members, this`log
      ensures log.Keys == members.Keys == old(members).Keys
      ensures EntryOf(id) == old(EntryOf(id)).(row := m, log := attempts)
      ensures forall x :: x != id ==> EntryOf(x) == old(EntryOf(x))
    {
      members := members[id := m];
      log := log[id := attempts];
    }

    method StoreRates(id: string, queue: seq<Observation>, tokens: nat, ghost now: real)
      modifies this`minuteObservations, this`maxObservedRpm, this`maxObservedTpm, this`clock
      ensures clock == now
      ensures EntryOf(id) == AddRates(old(EntryOf(id)), queue, tokens)
      ensures forall x :: x != id ==> EntryOf(x) == old(EntryOf(x))
    {
      minuteObservations := minuteObservations[id := queue];
      maxObservedRpm := maxObservedRpm[id := if Rpm(id) < |queue| then |queue| else Rpm(id)];
      maxObservedTpm := maxObservedTpm[id := if Tpm(id) < tokens then tokens else Tpm(id)];
      clock := now;
    }

    // reset_members: the member starts again from its resolved prior.
    method ResetMembers(ids: set<string>)
      requires Valid()
      modifies this
      ensures Valid() && clock == old(clock)
      ensures members.Keys == old(members).Keys - ids
      ensures forall x :: EntryOf(x) == if x in ids then BlankEntry(BlankState(x)) else old(EntryOf(x))
    {
      hide EntryOk, BlankState, BlankEntry;
      var left := ids;
      while left != {}
        invariant left <= ids && clock == old(clock) && log.Keys == members.Keys == old(members).Keys - (ids - left)
        invariant forall x :: EntryOf(x) == if x in ids - left then BlankEntry(BlankState(x)) else old(EntryOf(x))
        decreases |left|
      {
        var id :| id in left;
        left := left - {id};
        Drop(id);
      }
      AnyBlankEntryOk();
      assert forall x: string :: EntryOk(old(EntryOf(x)), clock, settings);
    }

    lemma AnyBlankEntryOk()
      requires SettingsOk(settings)
      ensures forall x: string :: EntryOk(BlankEntry(BlankState(x)), clock, settings)
    {
      hide EntryOk;
      forall x: string ensures EntryOk(BlankEntry(BlankState(x)), clock, settings) {
        BlankEntryOk(BlankState(x), clock, settings);
      }
    }

    method Drop(id: string)
      requires log.Keys == members.Keys
      modifies this
      ensures log.Keys == members.Keys && clock == old(clock)
      ensures members == old(members) - {id}
      ensures EntryOf(id) == BlankEntry(BlankState(id))
      ensures forall x :: x != id ==> EntryOf(x) == old(EntryOf(x))
    {
      members, minuteObservations := members - {id}, minuteObservations - {id};
      maxObservedRpm, maxObservedTpm := maxObservedRpm - {id}, maxObservedTpm - {id};
      log := log - {id};
    }

    // forget_members: whoever is outside the kept set is dropped the same way.
    method ForgetMembers(keep: set<string>)
      requires Valid()
      modifies this
      ensures Valid() && clock == old(clock)
      ensures members.Keys == old(members).Keys * keep
      ensures forall x :: EntryOf(x) == if x in old(members) && x !in keep then BlankEntry(BlankState(x)) else old(EntryOf(x))
    {
      hide EntryOk;
      ResetMembers(members.Keys - keep);
    }

    // Replacing a prior leaves every observed outcome where it was.
    method UpdatePrior(id: string, priorAlpha: real, priorBeta: real) returns (error: Option<PriorError>)
      requires Valid()
      modifies this
      ensures Valid() && clock == old(clock)
      ensures error.Some? <==> priorAlpha < 0.0 || priorBeta < 0.0
      ensures error.Some? ==> unchanged(this)
      ensures error.None? ==> EntryOf(id).log == old(LogOf(id)) && PriorOf(id) == (priorAlpha, priorBeta)
      ensures error.None? ==> members.Keys == old(members).Keys + {id}
      ensures forall x :: x != id ==> EntryOf(x) == old(EntryOf(x))
    {
      hide EntryOk;
      if priorAlpha < 0.0 || priorBeta < 0.0 { return Some(NegativePrior); }
      RegisterMember(id);
      assert EntryOk(EntryOf(id), clock, settings);
      EntryAfterPrior(EntryOf(id), clock, settings, priorAlpha, priorBeta);
      var m := members[id];
      Store(id, m.(priorAlpha := priorAlpha, priorBeta := priorBeta,
                   alpha := m.alpha + (priorAlpha - m.priorAlpha), beta := m.beta + (priorBeta - m.priorBeta)), LogOf(id));
      return None;
    }

    method ObserveFailure(id: string)
      requires Valid()
      modifies this
      ensures Valid() && clock == old(clock)
      ensures EntryOf(id).log == old(LogOf(id)) + [Failure] && PriorOf(id) == old(PriorOf(id))
      ensures members.Keys == old(members).Keys + {id}
      ensures forall x :: x != id ==> EntryOf(x) == old(EntryOf(x))
    {
      hide EntryOk;
      RegisterMember(id);
      assert EntryOk(EntryOf(id), clock, settings);
      EntryAfterFailure(EntryOf(id), clock, settings);
      Store(id, members[id].(beta := members[id].beta + 1.0), LogOf(id) + [Failure]);
    }

    // The clock is read while the attempt is recorded; it never runs backwards.
    method ObserveSuccess(id: string, latency: Option<real>, outputTokens: Option<int>, totalTokens: Option<int>, now: real)
        returns (error: Option<ObserveError>)
      requires Valid() && clock <= now
      modifies this
      ensures Valid()
      ensures error == CheckAttempt(latency, outputTokens, totalTokens)
      ensures error.Some? ==> unchanged(this)
      ensures error.None? ==>
        && clock == now && PriorOf(id) == old(PriorOf(id)) && members.Keys == old(members).Keys + {id}
        && EntryOf(id).log == old(LogOf(id)) + [Success(now, latency, Tokens(outputTokens), Tokens(totalTokens))]
      ensures forall x :: x != id ==> EntryOf(x) == old(EntryOf(x))
    {
      hide EntryOk, Blend, Window, Total, RowAfterSuccess, TimeSorted, SettingsOk;
      error := CheckAttempt(latency, outputTokens, totalTokens);
      if error.Some? { return; }
      RegisterMember(id);
      ghost var attempt := Success(now, latency, Tokens(outputTokens), Tokens(totalTokens));
      assert EntryOk(EntryOf(id), clock, settings);
      EntryAfterSuccess(EntryOf(id), clock, settings, attempt);
      AllLater(now);
      var m := CountSuccess(members[id], latency, outputTokens, attempt);
      var queue := Prune(Queue(id) + [Observation(now, Tokens(totalTokens))], now);
      var tokens := TokensIn(queue);
      Store(id, m, LogOf(id) + [attempt]);
      StoreRates(id, queue, tokens, now);
    }

    // Counts the success, and blends in a latency and a throughput only where one was measured.
    method CountSuccess(m: Member, latency: Option<real>, outputTokens: Option<int>, ghost attempt: Attempt) returns (next: Member)
      requires SettingsOk(settings) && CheckAttempt(latency, outputTokens, None).None?
      requires attempt.Success? && attempt.latency == latency && attempt.outputTokens == Tokens(outputTokens)
      ensures next == RowAfterSuccess(m, attempt, settings)
      ensures next.priorAlpha == m.priorAlpha && next.priorBeta == m.priorBeta
    {
      next := m.(alpha := m.alpha + 1.0);
      if latency.Some? {
        var clamped := ClampLatency(latency.value, settings.minLatency);
        next := next.(ewma := Some(Blend(next.ewma, clamped, settings.gain)));
        if outputTokens.Some? {
          next := next.(ewmaTps := Some(Blend(next.ewmaTps, outputTokens.value as real / clamped, settings.gain)));
        }
      }
    }

    lemma AllLater(now: real)
      requires Valid() && clock <= now
      ensures forall x: string :: EntryOk(EntryOf(x), now, settings)
    {
      hide EntryOk;
      forall x: string ensures EntryOk(EntryOf(x), now, settings) {
        assert EntryOk(EntryOf(x), clock, settings);
        EntryLater(EntryOf(x), clock, now, settings);
      }
    }

    method MemberScore(id: string) returns (score: Result<real, ScoreError>)
      requires Valid()
      ensures score == ScoreOf(id)
    {
      assert EntryOk(EntryOf(id), clock, settings);
      score := Score(if id in members then Some(members[id]) else None, settings.minLatency);
    }

    // The score of a member's prior and history.
    ghost function ScoreOf(id: string): Result<real, ScoreError>
      requires SettingsOk(settings)
      reads this
    {
      Score(if id in members then Some(StateAfter(PriorOf(id), LogOf(id), settings)) else None, settings.minLatency)
    }

    // sorted() with the negated score as its key: best first, ties in the caller's order.
    method RankedMemberIds(ids: seq<string>) returns (ranked: Result<seq<string>, ScoreError>, ghost scores: map<string, real>)
      requires Valid()
      ensures ranked.Ok? ==> ranked.value == Sort(ids, NotSlower(scores))
      ensures ranked.Ok? ==> forall i :: 0 <= i < |ids| ==> ids[i] in scores && ScoreOf(ids[i]) == Ok(scores[ids[i]])
      ensures ranked.Err? <==> exists i :: 0 <= i < |ids| && ScoreOf(ids[i]).Err?
    {
      hide EntryOk, Score, Sort;
      var scored: map<string, real> := map[];
      scores := map[];
      for i := 0 to |ids|
        invariant forall k :: 0 <= k < i ==> ids[k] in scored
        invariant forall id :: id in scored ==> ScoreOf(id) == Ok(scored[id])
      {
        var score := MemberScore(ids[i]);
        match score {
          case Err(e) => return Err(e), map[];
          case Ok(value) => scored := scored[ids[i] := value];
        }
      }
      return Ok(Sort(ids, NotSlower(scored))), scored;
    }
  }

  function BlankEntry(m: Member): Entry {
    Entry(m, [], 0, 0, [])
  }

  function AddRates(e: Entry, queue: seq<Observation>, tokens: nat): Entry {
    e.(queue := queue, rpm := if e.rpm < |queue| then |queue| else e.rpm, tpm := if e.tpm < tokens then tokens else e.tpm)
  }

  // Token counts past validation.
  function Tokens(count: Option<int>): Option<nat>
    requires count.Some? ==> count.value > 0
  {
    match count
    case None => None
    case Some(value) => Some(value)
  }

  // ----- lemmas: histories --------------------------------------------------------------------

  lemma AfterFailure(prior: (real, real), log: Log, s: Settings)
    requires SettingsOk(s)
    ensures var m := StateAfter(prior, log, s); StateAfter(prior, log + [Failure], s) == m.(beta := m.beta + 1.0)
    ensures Observations(log + [Failure]) == Observations(log)
  {
    assert (log + [Failure])[..|log|] == log;
    SuccessesBounded(log);
  }

  lemma AfterSuccess(prior: (real, real), log: Log, s: Settings, attempt: Attempt)
    requires SettingsOk(s) && attempt.Success?
    ensures StateAfter(prior, log + [attempt], s) == RowAfterSuccess(StateAfter(prior, log, s), attempt, s)
  {
    hide Blend;
    assert (log + [attempt])[..|log|] == log;
    SuccessesBounded(log);
    var latencies, throughputs := Latencies(log, s.minLatency), Throughputs(log, s.minLatency);
    forall x: real ensures (latencies + [x])[..|latencies|] == latencies && (throughputs + [x])[..|throughputs|] == throughputs {}
  }

  lemma {:induction false} SuccessesBounded(log: Log)
    ensures Successes(log) <= |log|
  {
    if log != [] { SuccessesBounded(log[..|log| - 1]); }
  }

  lemma ObservationsSnoc(log: Log, attempt: Attempt)
    requires attempt.Success?
    ensures Observations(log + [attempt]) == Observations(log) + [Observation(attempt.time, attempt.totalTokens)]
  {
    assert (log + [attempt])[..|log|] == log;
  }

  lemma BlendMeans(average: Option<real>, sample: real, gain: real)
    ensures Blend(None, sample, gain) == sample
    ensures average.Some? ==> Blend(average, sample, gain) == (1.0 - gain) * average.value + gain * sample
  {
  }

  // The first sample is the average; each later one enters with the gain, and the average so
  // far with what the gain leaves.
  lemma NewestSampleHasTheGain(samples: seq<real>, sample: real, gain: real)
    ensures Average([], gain) == None && Average([sample], gain) == Some(sample)
    ensures samples != [] ==> Average(samples, gain).Some? && Average(samples + [sample], gain).Some?
    ensures samples != [] ==> Average(samples + [sample], gain).value == (1.0 - gain) * Average(samples, gain).value + gain * sample
  {
    hide Blend;
    BlendMeans(Average(samples, gain), sample, gain);
    assert [sample][..0] == [];
    assert (samples + [sample])[..|samples|] == samples;
  }

  // What a success does to a member's row. Latencies below the floor count as the floor; only
  // an attempt with a latency moves the averages, and the throughput needs its token count too.
  lemma SuccessMovesTheRow(m: Member, attempt: Attempt, s: Settings, clamped: real)
    requires SettingsOk(s) && attempt.Success?
    requires attempt.latency.Some? ==> clamped == if attempt.latency.value > s.minLatency then attempt.latency.value else s.minLatency
    ensures var next := RowAfterSuccess(m, attempt, s);
      && next.alpha == m.alpha + 1.0 && next.beta == m.beta && next.priorAlpha == m.priorAlpha && next.priorBeta == m.priorBeta
      && (attempt.latency.None? ==> next.ewma == m.ewma)
      && (attempt.latency.Some? ==>
            && next.ewma.Some?
            && next.ewma.value == if m.ewma.None? then clamped else (1.0 - s.gain) * m.ewma.value + s.gain * clamped)
      && (attempt.latency.None? || attempt.outputTokens.None? ==> next.ewmaTps == m.ewmaTps)
      && (attempt.latency.Some? && attempt.outputTokens.Some? ==>
            && next.ewmaTps.Some?
            && next.ewmaTps.value == if m.ewmaTps.None? then attempt.outputTokens.value as real / clamped
                                     else (1.0 - s.gain) * m.ewmaTps.value + s.gain * (attempt.outputTokens.value as real / clamped))
  {
    hide Blend;
    BlendMeans(m.ewma, clamped, s.gain);
    if attempt.latency.Some? && attempt.outputTokens.Some? {
      BlendMeans(m.ewmaTps, attempt.outputTokens.value as real / clamped, s.gain);
    }
  }

  // The average stays between the smallest and the largest sample it has seen.
  lemma {:induction false} AverageStaysInHull(samples: seq<real>, gain: real) returns (low: nat, high: nat)
    requires 0.0 < gain <= 1.0 && samples != []
    ensures low < |samples| && high < |samples|
    ensures Average(samples, gain).Some?
    ensures samples[low] <= Average(samples, gain).value <= samples[high]
  {
    var front, last := samples[..|samples| - 1], |samples| - 1;
    if front == [] { return 0, 0; }
    low, high := AverageStaysInHull(front, gain);
    var before := Average(front, gain).value;
    BlendIsBetween(before, samples[last], gain);
    if samples[last] <= before { low := last; } else { high := last; }
  }

  lemma BlendIsBetween(average: real, sample: real, gain: real)
    requires 0.0 < gain <= 1.0
    ensures sample <= average ==> sample <= Blend(Some(average), sample, gain) <= average
    ensures average <= sample ==> average <= Blend(Some(average), sample, gain) <= sample
  {
    var gap, rest := sample - average, 1.0 - gain;
    assert Blend(Some(average), sample, gain) == average + gain * gap == sample - rest * gap;
    if gap >= 0.0 {
      NonNegativeProduct(gain, gap);
      NonNegativeProduct(rest, gap);
    } else {
      NonNegativeProduct(gain, -gap);
      NonNegativeProduct(rest, -gap);
    }
  }

  lemma NonNegativeProduct(a: real, b: real)
    requires a >= 0.0 && b >= 0.0
    ensures a * b >= 0.0
  {
  }

  // ----- lemmas: windows ------------------------------------------------------------------------

  lemma {:induction false} TotalAppend(weight: Weight, a: seq<Observation>, b: seq<Observation>)
    ensures Total(weight, a + b) == Total(weight, a) + Total(weight, b)
  {
    if a == [] {
      assert a + b == b;
    } else {
      assert (a + b)[1..] == a[1..] + b;
      TotalAppend(weight, a[1..], b);
    }
  }

  // Over whole minutes the two weights are the number of observations and the sum of their
  // tokens, an observation without a count adding none.
  lemma WeightOfOne(o: Observation)
    ensures Total(OfOne(), [o]) == 1
    ensures Total(OfTokens(), [o]) == if o.tokens.Some? then o.tokens.value else 0
    ensures Total(OfTokens(), []) == 0
  {
    assert [o][1..] == [];
  }

  lemma {:induction false} TotalOfOneIsLength(observed: seq<Observation>)
    ensures Total(OfOne(), observed) == |observed|
  {
    if observed != [] { TotalOfOneIsLength(observed[1..]); }
  }

  lemma {:induction false} TotalOfMore(weight: Weight, p: Observation -> bool, q: Observation -> bool, observed: seq<Observation>)
    requires forall i :: 0 <= i < |observed| && p(observed[i]) ==> q(observed[i])
    ensures Total(weight, Filter(p, observed)) <= Total(weight, Filter(q, observed))
  {
    if observed != [] {
      TotalOfMore(weight, p, q, observed[1..]);
      TotalAppend(weight, if p(observed[0]) then [observed[0]] else [], Filter(p, observed[1..]));
      TotalAppend(weight, if q(observed[0]) then [observed[0]] else [], Filter(q, observed[1..]));
    }
  }

  lemma QueueIsSorted(queue: seq<Observation>, rpm: nat, tpm: nat, observed: seq<Observation>, clock: real, next: Observation)
    requires RatesOk(queue, rpm, tpm, observed, clock) && clock <= next.time
    ensures TimeSorted(queue + [next])
  {
    if observed != [] {
      var cutoff := observed[|observed| - 1].time - WINDOW;
      FilterSorted(After(cutoff), observed);
      FilterMembers(After(cutoff), observed);
      forall i | 0 <= i < |queue| ensures queue[i].time <= clock { assert queue[i] in observed; }
    }
  }

  lemma {:induction false} FilterSorted(p: Observation -> bool, observed: seq<Observation>)
    requires TimeSorted(observed)
    ensures TimeSorted(Filter(p, observed))
  {
    if observed != [] {
      var rest := Filter(p, observed[1..]);
      FilterSorted(p, observed[1..]);
      FilterMembers(p, observed[1..]);
      forall i | 0 <= i < |rest| ensures observed[0].time <= rest[i].time { assert rest[i] in observed[1..]; }
    }
  }

  // Pruning the deque after one more observation gives the window over the whole history, and
  // the running maxima stay the peaks of that history.
  lemma RatesStep(queue: seq<Observation>, rpm: nat, tpm: nat, observed: seq<Observation>, clock: real, next: Observation)
    requires RatesOk(queue, rpm, tpm, observed, clock) && clock <= next.time
    ensures var kept := Window(queue + [next], next.time);
      RatesOk(kept, if rpm < |kept| then |kept| else rpm,
              if tpm < Total(OfTokens(), kept) then Total(OfTokens(), kept) else tpm, observed + [next], next.time)
  {
    hide Filter;
    var more := observed + [next];
    var kept := Window(queue + [next], next.time);
    assert more[..|observed|] == observed;
    var recent := After(next.time - WINDOW);
    FilterAppend(recent, queue, [next]);
    FilterAppend(recent, observed, [next]);
    if observed != [] {
      FilterTwice(recent, After(observed[|observed| - 1].time - WINDOW), observed);
    }
    assert kept == Window(more, next.time);
    TotalOfOneIsLength(kept);
  }

  // ----- lemmas: one member's row -----------------------------------------------------------------

  lemma BlankEntryOk(m: Member, clock: real, s: Settings)
    requires SettingsOk(s)
    requires m.alpha == m.priorAlpha && m.beta == m.priorBeta && m.ewma.None? && m.ewmaTps.None?
    ensures EntryOk(BlankEntry(m), clock, s)
  {
  }

  lemma EntryLater(e: Entry, clock: real, now: real, s: Settings)
    requires SettingsOk(s) && EntryOk(e, clock, s) && clock <= now
    ensures EntryOk(e, now, s)
  {
    hide StateAfter, Peak, Filter, Observations;
  }

  lemma EntryAfterPrior(e: Entry, clock: real, s: Settings, pa: real, pb: real)
    requires SettingsOk(s) && EntryOk(e, clock, s)
    ensures var m := e.row;
      EntryOk(e.(row := m.(priorAlpha := pa, priorBeta := pb,
                           alpha := m.alpha + (pa - m.priorAlpha), beta := m.beta + (pb - m.priorBeta))), clock, s)
  {
    hide RatesOk;
  }

  lemma EntryAfterFailure(e: Entry, clock: real, s: Settings)
    requires SettingsOk(s) && EntryOk(e, clock, s)
    ensures EntryOk(e.(row := e.row.(beta := e.row.beta + 1.0), log := e.log + [Failure]), clock, s)
  {
    hide RatesOk;
    AfterFailure((e.row.priorAlpha, e.row.priorBeta), e.log, s);
    assert StateAfter((e.row.priorAlpha, e.row.priorBeta), e.log + [Failure], s) == e.row.(beta := e.row.beta + 1.0);
  }

  // The row after one more success, field by field as it is updated.
  function RowAfterSuccess(m: Member, attempt: Attempt, s: Settings): Member
    requires SettingsOk(s) && attempt.Success?
  {
    m.(alpha := m.alpha + 1.0,
       ewma := if attempt.latency.None? then m.ewma
               else Some(Blend(m.ewma, ClampLatency(attempt.latency.value, s.minLatency), s.gain)),
       ewmaTps := if attempt.latency.None? || attempt.outputTokens.None? then m.ewmaTps
               else Some(Blend(m.ewmaTps, attempt.outputTokens.value as real / ClampLatency(attempt.latency.value, s.minLatency), s.gain)))
  }

  lemma EntryAfterSuccess(e: Entry, clock: real, s: Settings, attempt: Attempt)
    requires SettingsOk(s) && EntryOk(e, clock, s)
    requires attempt.Success? && clock <= attempt.time
    ensures TimeSorted(e.queue + [Observation(attempt.time, attempt.totalTokens)])
    ensures var kept := Window(e.queue + [Observation(attempt.time, attempt.totalTokens)], attempt.time);
      EntryOk(AddRates(e.(row := RowAfterSuccess(e.row, attempt, s), log := e.log + [attempt]), kept, Total(OfTokens(), kept)),
              attempt.time, s)
  {
    hide RatesOk, Blend, Average, Filter, StateAfter;
    AfterSuccess((e.row.priorAlpha, e.row.priorBeta), e.log, s, attempt);
    ObservationsSnoc(e.log, attempt);
    var observation := Observation(attempt.time, attempt.totalTokens);
    QueueIsSorted(e.queue, e.rpm, e.tpm, Observations(e.log), clock, observation);
    RatesStep(e.queue, e.rpm, e.tpm, Observations(e.log), clock, observation);
  }

  // ----- lemmas: peaks ------------------------------------------------------------------------------

  // Observations in the minute that ends at `end`.
  function InMinute(end: real): Observation -> bool {
    (o: Observation) => end - 60.0 < o.time <= end
  }

  // No minute whatever, ending at any instant, is heavier than the stored maximum.
  lemma {:induction false} NoMinuteExceedsPeak(weight: Weight, observed: seq<Observation>, end: real)
    requires TimeSorted(observed)
    ensures Total(weight, Filter(InMinute(end), observed)) <= Peak(weight, observed)
  {
    if observed != [] {
      var front, last := observed[..|observed| - 1], observed[|observed| - 1];
      if last.time <= end {
        TotalOfMore(weight, InMinute(end), After(last.time - WINDOW), observed);
      } else {
        NoMinuteExceedsPeak(weight, front, end);
        assert observed == front + [last];
        FilterSnoc(InMinute(end), front, last);
        assert Filter(InMinute(end), observed) == Filter(InMinute(end), front);
      }
    }
  }

  // And some minute is as heavy as the stored maximum.
  lemma {:induction false} PeakIsReached(weight: Weight, observed: seq<Observation>) returns (end: real)
    requires TimeSorted(observed) && observed != []
    ensures Total(weight, Filter(InMinute(end), observed)) == Peak(weight, observed)
  {
    var front, last := observed[..|observed| - 1], observed[|observed| - 1];
    if Peak(weight, front) <= Total(weight, Window(observed, last.time)) {
      FilterCongruent(InMinute(last.time), After(last.time - WINDOW), observed);
      return last.time;
    }
    end := PeakIsReached(weight, front);
    assert observed == front + [last];
    FilterAppend(InMinute(end), front, [last]);
    TotalAppend(weight, Filter(InMinute(end), front), Filter(InMinute(end), [last]));
    NoMinuteExceedsPeak(weight, observed, end);
  }

  // ----- lemmas: scores ---------------------------------------------------------------------------

  // Which attempts are recorded: no negative latency, and no token count below one.
  lemma AttemptIsRecordedIff(latency: Option<real>, outputTokens: Option<int>, totalTokens: Option<int>)
    ensures CheckAttempt(latency, outputTokens, totalTokens) == None <==>
      && (latency.Some? ==> 0.0 <= latency.value)
      && (outputTokens.Some? ==> 1 <= outputTokens.value)
      && (totalTokens.Some? ==> 1 <= totalTokens.value)
    ensures CheckAttempt(latency, outputTokens, totalTokens) == Some(NegativeLatency) <==> latency.Some? && latency.value < 0.0
  {
  }

  // A registered member's score fails exactly when its prior and its outcomes add up to nothing:
  // with non-negative priors, when both are zero and nothing was observed.
  lemma ScoreFailsIff(prior: (real, real), log: Log, s: Settings)
    requires SettingsOk(s)
    ensures Score(Some(StateAfter(prior, log, s)), s.minLatency).Err? <==> prior.0 + prior.1 + |log| as real == 0.0
    ensures prior.0 >= 0.0 && prior.1 >= 0.0 ==>
      (prior.0 + prior.1 + |log| as real == 0.0 <==> prior == (0.0, 0.0) && log == [])
  {
    SuccessesBounded(log);
  }

  // The mass behind a member's posterior mean, and the part of it that stands for successes.
  function Mass(prior: (real, real), log: Log): real { prior.0 + prior.1 + |log| as real }
  function SuccessMass(prior: (real, real), log: Log): real { prior.0 + Successes(log) as real }

  // One more failure lowers a member's score exactly when its success mass is not zero and has
  // the sign of the product of its mass before and after; so always for a non-negative prior
  // with some success mass.
  lemma FailureLowersScoreIff(prior: (real, real), log: Log, s: Settings)
    requires SettingsOk(s) && Mass(prior, log) != 0.0 && Mass(prior, log) != -1.0
    ensures var before := Score(Some(StateAfter(prior, log, s)), s.minLatency);
      var after := Score(Some(StateAfter(prior, log + [Failure], s)), s.minLatency);
      && before.Ok? && after.Ok?
      && (after.value < before.value <==>
            if Mass(prior, log) > 0.0 || Mass(prior, log) < -1.0 then SuccessMass(prior, log) > 0.0
            else SuccessMass(prior, log) < 0.0)
  {
    SuccessesBounded(log);
    AfterFailure(prior, log, s);
    var m := StateAfter(prior, log, s);
    var mass, a := Mass(prior, log), SuccessMass(prior, log);
    assert m.alpha == a && m.alpha + m.beta == mass && m.alpha + (m.beta + 1.0) == mass + 1.0;
    ShareGap(a, mass);
    var share, later := a / mass, a / (mass + 1.0);
    if m.ewma.Some? {
      var divisor := ClampLatency(m.ewma.value, s.minLatency);
      if later < share { SmallerShare(later, share, divisor); }
      if share < later { SmallerShare(share, later, divisor); }
    }
  }

  // How a share moves when the whole grows by one.
  lemma ShareGap(a: real, mass: real)
    requires mass != 0.0 && mass != -1.0
    ensures a / (mass + 1.0) < a / mass <==> if mass > 0.0 || mass < -1.0 then a > 0.0 else a < 0.0
  {
    var share, later := a / mass, a / (mass + 1.0);
    var gap, product := share - later, mass * (mass + 1.0);
    assert share * mass == a && later * (mass + 1.0) == a;
    assert gap * product == (share * mass) * (mass + 1.0) - (later * (mass + 1.0)) * mass;
    assert gap * product == a;
    SignOfProduct(mass, mass + 1.0);
    SignOfProduct(gap, product);
  }

  // A member without a row scores one half; one without a measured latency scores its success
  // share; any other the share over its latency, taken to be the floor at least.
  lemma ScoreMeans(m: Member, floor: real)
    requires floor > 0.0 && m.alpha + m.beta != 0.0
    ensures Score(None, floor) == Ok(0.5)
    ensures m.ewma.None? ==> Score(Some(m), floor) == Ok(m.alpha / (m.alpha + m.beta))
    ensures m.ewma.Some? && m.ewma.value > floor ==> Score(Some(m), floor) == Ok(m.alpha / (m.alpha + m.beta) / m.ewma.value)
    ensures m.ewma.Some? && m.ewma.value <= floor ==> Score(Some(m), floor) == Ok(m.alpha / (m.alpha + m.beta) / floor)
  {
  }

  // Of two members with the same positive success share the slower scores lower, as soon as
  // its latency exceeds the floor.
  lemma SlowerScoresLower(fast: Member, slow: Member, floor: real)
    requires floor > 0.0 && fast.ewma.Some? && slow.ewma.Some?
    requires fast.alpha + fast.beta > 0.0 && slow.alpha + slow.beta > 0.0
    requires fast.alpha / (fast.alpha + fast.beta) == slow.alpha / (slow.alpha + slow.beta) > 0.0
    ensures Score(Some(fast), floor).Ok? && Score(Some(slow), floor).Ok?
    ensures fast.ewma.value < slow.ewma.value && slow.ewma.value > floor ==>
      Score(Some(slow), floor).value < Score(Some(fast), floor).value
    ensures slow.ewma.value <= floor && fast.ewma.value <= floor ==> Score(Some(slow), floor) == Score(Some(fast), floor)
  {
    var share := fast.alpha / (fast.alpha + fast.beta);
    if fast.ewma.value < slow.ewma.value && slow.ewma.value > floor {
      LargerDivisor(share, ClampLatency(fast.ewma.value, floor), ClampLatency(slow.ewma.value, floor));
    }
  }

  lemma LargerDivisor(x: real, small: real, large: real)
    requires x > 0.0 && 0.0 < small < large
    ensures x / large < x / small
  {
    var gap := x / small - x / large;
    assert (x / small) * small == x && (x / large) * large == x;
    assert gap * (small * large) == x * (large - small);
    SignOfProduct(x, large - small);
    SignOfProduct(small, large);
    SignOfProduct(gap, small * large);
  }

  // And of two equally fast ones the more reliable scores higher.
  lemma ReliableScoresHigher(better: Member, worse: Member, floor: real)
    requires floor > 0.0 && better.ewma == worse.ewma
    requires better.alpha + better.beta > 0.0 && worse.alpha + worse.beta > 0.0
    requires better.alpha / (better.alpha + better.beta) > worse.alpha / (worse.alpha + worse.beta)
    ensures Score(Some(better), floor).Ok? && Score(Some(worse), floor).Ok?
    ensures Score(Some(worse), floor).value < Score(Some(better), floor).value
  {
    var divisor := if better.ewma.Some? then ClampLatency(better.ewma.value, floor) else 1.0;
    SmallerShare(worse.alpha / (worse.alpha + worse.beta), better.alpha / (better.alpha + better.beta), divisor);
  }

  lemma SignOfProduct(x: real, y: real)
    ensures x * y > 0.0 <==> (x > 0.0 && y > 0.0) || (x < 0.0 && y < 0.0)
    ensures x * y < 0.0 <==> (x > 0.0 && y < 0.0) || (x < 0.0 && y > 0.0)
  {
  }

  lemma SmallerShare(small: real, large: real, divisor: real)
    requires small < large && divisor > 0.0
    ensures small / divisor < large / divisor
  {
    assert (small / divisor) * divisor == small && (large / divisor) * divisor == large;
    var gap := (large - small) / divisor;
    assert gap * divisor == large - small;
    assert large / divisor - small / divisor == gap;
    if gap <= 0.0 { NonNegativeProduct(-gap, divisor); }
  }

  // Best first, every id kept, ties in the caller's order; and no reordering at all while
  // the members cannot be told apart.
  lemma RankingIsStable(ids: seq<string>, scores: map<string, real>, pivot: string)
    ensures multiset(Sort(ids, NotSlower(scores))) == multiset(ids)
    ensures forall i, j :: 0 <= i < j < |Sort(ids, NotSlower(scores))| ==>
      ScoreIn(scores, Sort(ids, NotSlower(scores))[i]) >= ScoreIn(scores, Sort(ids, NotSlower(scores))[j])
    ensures Filter(TiedWith(NotSlower(scores), pivot), Sort(ids, NotSlower(scores))) == Filter(TiedWith(NotSlower(scores), pivot), ids)
    ensures (forall i :: 0 <= i < |ids| ==> ScoreIn(scores, ids[i]) == ScoreIn(scores, pivot)) ==> Sort(ids, NotSlower(scores)) == ids
  {
    hide Filter, Sort;
    var le := NotSlower(scores);
    assert TotalPreorder(le);
    SortPermutes(ids, le);
    SortSorts(ids, le);
    SortIsStable(ids, le, pivot);
    forall i, j | 0 <= i < j < |Sort(ids, le)| ensures ScoreIn(scores, Sort(ids, le)[i]) >= ScoreIn(scores, Sort(ids, le)[j]) {
      assert le(Sort(ids, le)[i], Sort(ids, le)[j]);
    }
    if forall i :: 0 <= i < |ids| ==> ScoreIn(scores, ids[i]) == ScoreIn(scores, pivot) { SortOfSorted(ids, le); }
  }
}
