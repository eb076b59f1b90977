/** The gateway with any number of requests in progress at once, on one backend, one round-robin index and one
    telemetry.  Each step takes one request from one point where it may be suspended to the next; what the backend,
    the provider and the clock do in that step is given from outside.  Every run of this machine serves every request
    as Gateway.ChatCompletion does, under the worlds that the request has met (main.py:245-450). */
module Service {
  import opened Contracts
  import opened Routing
  import opened Fallback
  import opened FallbackTheorems
  import opened ResponseCache
  import opened Idempotency
  import opened Gateway
  import opened Accounting
  import KeyValue
  import RoundRobin
  import Telemetry

  datatype Config = Config(registry: seq<Descriptor>, cacheEnabled: bool, cacheTtl: int, recordTtl: int)

  type Backend = map<Key, KeyValue.Entry<Payload<Completion>>>

  datatype Shared = Shared(backend: Backend, turn: nat)

  /** Where a request is suspended. */
  datatype Phase =
    | Arrived
    | Choosing                                                               // before a routing decision
    | Looking(decision: Decision, turn: nat)                                 // before the cache lookup
    | Calling(decision: Decision, turn: nat)                                 // the provider is at work
    | Filling(decision: Decision, result: ProviderResult)                    // before the cache is filled
    | Answering(decision: Decision, result: ProviderResult, cacheHit: bool)  // before the record is stored
    | Done(reply: HttpReply)

  /** A request in progress: the providers that failed it, and what it has met so far. */
  datatype Job = Job(
    visit: Visit,
    phase: Phase,
    lookup: Lookup<Completion>,
    failed: seq<string>,
    worlds: seq<World>,
    latencies: seq<real>,
    total: real,
    writes: seq<Write>)

  /** What the outside contributes to one step. */
  datatype Env = Env(at: real, fails: bool, fate: KeyValue.Fate, answer: CallOutcome, latency: real)

  datatype Effect = Effect(job: Job, shared: Shared, records: seq<Telemetry.Record>)

  function NewJob(v: Visit): Job {
    Job(v, Arrived, NoRecord, [], [], [], 0.0, [])
  }

  // ---------------------------------------------------------------------------------------------
  // The steps of one request
  // ---------------------------------------------------------------------------------------------

  function Met(turn: nat, cached: Option<ProviderResult>, answer: CallOutcome): World {
    World(turn, (name: string) => cached, (name: string) => answer)
  }

  function Inferences(events: seq<Telemetry.InferenceEvent>): (records: seq<Telemetry.Record>)
    ensures |records| == |events|
  {
    seq(|events|, i requires 0 <= i < |events| => Telemetry.Inference(events[i]))
  }

  function Conclude(c: Config, j: Job, s: Shared, reply: HttpReply, total: real): Effect {
    Effect(j.(phase := Done(reply), total := total), s,
           Inferences(EventsBehind(c.cacheEnabled, j.visit.request, reply, Times((i: nat) => 0.0, total))))
  }

  /** The checks up to the loop (lines 261-326); only an admissible request with both headers is looked up. */
  function Begin(c: Config, j: Job, s: Shared, e: Env): Effect {
    if Rejection(c.registry, j.visit).Some? then
      Conclude(c, j, s, Rejection(c.registry, j.visit).value, e.latency)
    else
      var (backend, found) :=
        if Keyed(j.visit) then KeyValue.Step(s.backend, KeyValue.Read(IdempotencyKey(RawKeyOf(j.visit)), e.at, e.fails))
        else (s.backend, None);
      var j1, s1 := j.(lookup := Judge(found, j.visit.request)), s.(backend := backend);
      match EarlyReply(c.registry, j1.visit, j1.lookup)
      case Some(reply) => Conclude(c, j1, s1, reply, e.latency)
      case None => Effect(j1.(phase := Choosing), s1, [])
  }

  /** An attempt that failed (lines 351-354, 364-370). */
  function Fail(j: Job, s: Shared, name: string, w: World, latency: real): Effect {
    Effect(j.(phase := Choosing, failed := j.failed + [name], worlds := j.worlds + [w],
              latencies := j.latencies + [latency]),
           s, [Telemetry.ProviderCall(name, false, latency)])
  }

  /** The routing decision and the simulated failure (lines 336-354). */
  function Route(c: Config, j: Job, s: Shared, e: Env): Effect {
    var r := j.visit.request;
    if |j.failed| >= MaxAttempts(c.registry, r) then Conclude(c, j, s, Unavailable(j.failed), e.latency)
    else
      var w := Met(s.turn, None, Failure);
      match Select(c.registry, r, NameSet(j.failed), s.turn)
      case Err(UnknownModel) => Conclude(c, j.(worlds := j.worlds + [w]), s, ModelNotFound, e.latency)
      case Err(NoEligibleProvider) =>
        Conclude(c, j.(worlds := j.worlds + [w]), s,
                 if j.failed == [] then NotEligible else Unavailable(j.failed), e.latency)
      case Ok(d) =>
        var s1 := s.(turn := s.turn + if TakesTurn(c.registry, r, NameSet(j.failed)) then 1 else 0);
        if r.routing.simulatedFailureProvider == Some(d.provider.name) then Fail(j, s1, d.provider.name, w, 0.0)
        else if UsesCache(c.cacheEnabled, r) then Effect(j.(phase := Looking(d, s.turn)), s1, [])
        else Effect(j.(phase := Calling(d, s.turn)), s1, [])
  }

  /** The cache lookup (lines 355-359). */
  function Look(c: Config, j: Job, s: Shared, e: Env): Effect
    requires j.phase.Looking?
  {
    var d, turn := j.phase.decision, j.phase.turn;
    var key := ResponseKey(MaterialOf(j.visit.request, d.provider.name));
    var (backend, found) := KeyValue.Step(s.backend, KeyValue.Read(key, e.at, e.fails));
    match Decoded(found)
    case None => Effect(j.(phase := Calling(d, turn)), s.(backend := backend), [])
    case Some(result) =>
      Effect(j.(phase := Answering(d, result, true), worlds := j.worlds + [Met(turn, Some(result), Failure)]),
             s.(backend := backend), [])
  }

  /** The provider returns (lines 360-377). */
  function Return(c: Config, j: Job, s: Shared, e: Env): Effect
    requires j.phase.Calling?
  {
    var d, turn := j.phase.decision, j.phase.turn;
    var w := Met(turn, None, e.answer);
    match e.answer
    case Failure => Fail(j, s, d.provider.name, w, e.latency)
    case Success(result) =>
      Effect(j.(phase := if UsesCache(c.cacheEnabled, j.visit.request) then Filling(d, result)
                         else Answering(d, result, false),
                worlds := j.worlds + [w], latencies := j.latencies + [e.latency]),
             s, [Telemetry.ProviderCall(d.provider.name, true, e.latency)])
  }

  /** The cache fill (lines 378-379). */
  function FillCache(c: Config, j: Job, s: Shared, e: Env): Effect
    requires j.phase.Filling?
  {
    var d, result := j.phase.decision, j.phase.result;
    var key := ResponseKey(MaterialOf(j.visit.request, d.provider.name));
    var write := KeyValue.Write(key, ResultPayload(result), c.cacheTtl, e.at, e.fate);
    Effect(j.(phase := Answering(d, result, false), writes := j.writes + [Fill(CacheFill(d.provider.name, result))]),
           s.(backend := KeyValue.Step(s.backend, write).0), [])
  }

  /** What the loop comes to for a request that is being answered. */
  function OutcomeOf(j: Job): Outcome
    requires j.phase.Answering?
  {
    Answered(j.phase.decision, j.phase.result, j.phase.cacheHit, j.failed + [j.phase.decision.provider.name])
  }

  /** The response is assembled, stored under the client and key, and recorded (lines 391-449). */
  function Answer(c: Config, j: Job, s: Shared, e: Env): Effect
    requires j.phase.Answering?
  {
    var v := j.visit;
    var body := BodyOf(v.requestId, v.request, OutcomeOf(j));
    if Keyed(v) then
      var key := IdempotencyKey(RawKeyOf(v));
      var write := KeyValue.Write(key, RecordPayload(v.request, body), c.recordTtl, e.at, e.fate);
      Conclude(c, j.(writes := j.writes + [Store(v.client.value, v.key.value, v.request, body)]),
               s.(backend := KeyValue.Step(s.backend, write).0), Completed(body), e.latency)
    else
      Conclude(c, j, s, Completed(body), e.latency)
  }

  function Advance(c: Config, j: Job, s: Shared, e: Env): Effect {
    match j.phase
    case Arrived => Begin(c, j, s, e)
    case Choosing => Route(c, j, s, e)
    case Looking(_, _) => Look(c, j, s, e)
    case Calling(_, _) => Return(c, j, s, e)
    case Filling(_, _) => FillCache(c, j, s, e)
    case Answering(_, _, _) => Answer(c, j, s, e)
    case Done(_) => Effect(j, s, [])
  }

  /** What a step asks of the backend. */
  function BackendUse(c: Config, j: Job, e: Env): seq<ResponseCache.Event<Completion>> {
    var v := j.visit;
    match j.phase
    case Arrived =>
      if Rejection(c.registry, v).None? && Keyed(v) then [RecordLookup(RawKeyOf(v), e.at, e.fails)] else []
    case Looking(d, _) => [CacheLookup(d.provider.name, v.request, e.at, e.fails)]
    case Filling(d, result) => [Produced(d.provider.name, v.request, result, e.at, e.fate)]
    case Answering(_, _, _) =>
      if Keyed(v)
      then
        var body := BodyOf(v.requestId, v.request, OutcomeOf(j));
        [RecordStored(RawKeyOf(v), v.request, body, c.recordTtl, e.at, e.fate)]
      else []
    case _ => []
  }

  /** The routing decision that a step asks for. */
  function AsksOf(c: Config, j: Job): seq<RoundRobin.Ask> {
    if j.phase.Choosing? && |j.failed| < MaxAttempts(c.registry, j.visit.request)
    then [RoundRobin.Ask(j.visit.request, NameSet(j.failed))]
    else []
  }

  // ---------------------------------------------------------------------------------------------
  // All requests
  // ---------------------------------------------------------------------------------------------

  /** Besides what the gateway holds: everything recorded, everything asked of the backend, and every routing decision
      asked for, each in order. */
  datatype State = State(
    now: real,
    shared: Shared,
    jobs: seq<Job>,
    log: seq<Tagged>,
    history: seq<ResponseCache.Event<Completion>>,
    asks: seq<RoundRobin.Ask>)

  datatype Action = Arrive(visit: Visit) | Move(job: nat, env: Env)

  function Initial(now: real): State {
    State(now, Shared(map[], 0), [], [], [], [])
  }

  /** The clock does not go back, and a finished request is over. */
  predicate Enabled(s: State, e: Action) {
    e.Move? ==> e.job < |s.jobs| && !s.jobs[e.job].phase.Done? && s.now <= e.env.at
  }

  function TagAll(request: nat, records: seq<Telemetry.Record>): (tagged: seq<Tagged>)
    ensures |tagged| == |records|
  {
    seq(|records|, i requires 0 <= i < |records| => Tagged(request, records[i]))
  }

  function Step(c: Config, s: State, e: Action): State
    requires Enabled(s, e)
  {
    match e
    case Arrive(v) => s.(jobs := s.jobs + [NewJob(v)])
    case Move(k, env) =>
      var effect := Advance(c, s.jobs[k], s.shared, env);
      State(env.at, effect.shared, s.jobs[k := effect.job], s.log + TagAll(k, effect.records),
            s.history + BackendUse(c, s.jobs[k], env), s.asks + AsksOf(c, s.jobs[k]))
  }

  /** `after` is reached from `before` by these events. */
  ghost predicate Leads(c: Config, before: State, events: seq<Action>, after: State)
    decreases |events|
  {
    if events == [] then after == before
    else
      var last := events[|events| - 1];
      exists s :: Leads(c, before, events[..|events| - 1], s) && Enabled(s, last) && after == Step(c, s, last)
  }

  ghost predicate Reachable(c: Config, start: real, s: State) {
    exists events :: Leads(c, Initial(start), events, s)
  }

  // ---------------------------------------------------------------------------------------------
  // What is known of a request in progress
  // ---------------------------------------------------------------------------------------------

  function LatencyAt(latencies: seq<real>, i: nat): real {
    if i < |latencies| then latencies[i] else 0.0
  }

  function TimesOf(latencies: seq<real>, total: real): Times {
    Times((i: nat) => LatencyAt(latencies, i), total)
  }

  /** The calls recorded so far. */
  function CallTrace(r: Request, calls: seq<ProviderCall>, latencies: seq<real>): seq<Telemetry.Record> {
    Timed(r, calls, TimesOf(latencies, 0.0))
  }

  ghost predicate OnPath(c: Config, j: Job) {
    && EarlyReply(c.registry, j.visit, j.lookup) == None
    && |j.failed| <= |j.worlds|
    && |j.failed| <= MaxAttempts(c.registry, j.visit.request)
    && FailedPath(c.registry, c.cacheEnabled, j.visit.request, j.worlds, j.failed, |j.failed|)
  }

  /** All attempts so far have failed. */
  ghost predicate Searching(c: Config, j: Job, trace: seq<Telemetry.Record>) {
    && OnPath(c, j)
    && |j.worlds| == |j.latencies| == |j.failed|
    && j.writes == []
    && trace == CallTrace(j.visit.request, FailureRecords(j.failed), j.latencies)
  }

  ghost predicate Decided(c: Config, j: Job, d: Decision, turn: nat) {
    && |j.failed| < MaxAttempts(c.registry, j.visit.request)
    && Select(c.registry, j.visit.request, NameSet(j.failed), turn) == Ok(d)
    && j.visit.request.routing.simulatedFailureProvider != Some(d.provider.name)
  }

  /** The last attempt gave this result. */
  ghost predicate Succeeded(c: Config, j: Job, o: Outcome) {
    && OnPath(c, j)
    && o.Answered?
    && |j.failed| < MaxAttempts(c.registry, j.visit.request)
    && |j.worlds| == |j.failed| + 1
    && o.attempted == j.failed + [o.decision.provider.name]
    && Select(c.registry, j.visit.request, NameSet(j.failed), j.worlds[|j.failed|].turn) == Ok(o.decision)
    && Attempt(c.cacheEnabled, j.visit.request, o.decision.provider.name, j.worlds[|j.failed|])
         == Some((o.result, o.cacheHit))
  }

  const IDLE := Met(0, None, Failure)

  /** The worlds of a request, with enough idle ones behind them. */
  function Padded(c: Config, j: Job): (ws: seq<World>)
    ensures MaxAttempts(c.registry, j.visit.request) <= |ws| && j.worlds <= ws
  {
    j.worlds + seq(MaxAttempts(c.registry, j.visit.request), i => IDLE)
  }

  /** The request was served as the endpoint serves it: its reply, its writes and its records. */
  ghost predicate ServedAs(c: Config, j: Job, reply: HttpReply, trace: seq<Telemetry.Record>) {
    && reply == Respond(c.registry, c.cacheEnabled, j.visit, j.lookup, Padded(c, j))
    && j.writes == WritesBehind(c.cacheEnabled, j.visit, reply)
    && trace == Emitted(c.cacheEnabled, j.visit.request, reply, TimesOf(j.latencies, j.total))
  }

  /** How far a request has come, and what it has recorded on the way. */
  ghost predicate Progress(c: Config, j: Job, trace: seq<Telemetry.Record>) {
    match j.phase
    case Arrived => j == NewJob(j.visit) && trace == []
    case Choosing => Searching(c, j, trace)
    case Looking(d, turn) =>
      Searching(c, j, trace) && Decided(c, j, d, turn) && UsesCache(c.cacheEnabled, j.visit.request)
    case Calling(d, turn) => Searching(c, j, trace) && Decided(c, j, d, turn)
    case Filling(d, result) =>
      var o := Answered(d, result, false, j.failed + [d.provider.name]);
      && Succeeded(c, j, o) && UsesCache(c.cacheEnabled, j.visit.request) && j.writes == []
      && trace == CallTrace(j.visit.request, CallRecords(o), j.latencies)
    case Answering(d, result, hit) =>
      var o := OutcomeOf(j);
      && Succeeded(c, j, o)
      && j.writes == Fills(FillsOf(c.cacheEnabled, j.visit.request, o))
      && trace == CallTrace(j.visit.request, CallRecords(o), j.latencies)
    case Done(reply) => ServedAs(c, j, reply, trace)
  }

  // ---------------------------------------------------------------------------------------------
  // Every step makes progress
  // ---------------------------------------------------------------------------------------------

  /** Records do not depend on latencies of later calls. */
  lemma TraceExtends(r: Request, calls: seq<ProviderCall>, call: ProviderCall, latencies: seq<real>, latency: real)
    requires |calls| == |latencies|
    requires r.routing.simulatedFailureProvider == Some(call.provider) ==> latency == 0.0
    ensures CallTrace(r, calls + [call], latencies + [latency])
         == CallTrace(r, calls, latencies) + [Telemetry.ProviderCall(call.provider, call.success, latency)]
  {
    var longer, more := calls + [call], latencies + [latency];
    forall i | 0 <= i < |calls|
      ensures CallTrace(r, longer, more)[i] == CallTrace(r, calls, latencies)[i]
    {
      assert longer[i] == calls[i] && LatencyAt(more, i) == LatencyAt(latencies, i);
    }
    assert LatencyAt(more, |calls|) == latency;
  }

  lemma PathExtends(c: Config, j: Job, w: World)
    requires OnPath(c, j)
    ensures OnPath(c, j.(worlds := j.worlds + [w]))
  {
    hide EarlyReply;
    hide Select;
    hide Attempt;
    var j' := j.(worlds := j.worlds + [w]);
    forall i | 0 <= i < |j.failed|
      ensures RoutedTo(c.registry, j.visit.request, j'.worlds, j.failed, i)
      ensures Failed(c.cacheEnabled, j.visit.request, j'.worlds, j.failed, i)
    {
      assert RoutedTo(c.registry, j.visit.request, j.worlds, j.failed, i);
      assert Failed(c.cacheEnabled, j.visit.request, j.worlds, j.failed, i);
    }
  }

  lemma FailureRecordsExtend(failed: seq<string>, name: string)
    ensures FailureRecords(failed + [name]) == FailureRecords(failed) + [ProviderCall(name, false, 0.0)]
  {
  }

  /** A failed attempt extends the path. */
  lemma FailKeepsSearching(
    c: Config, j: Job, s: Shared, d: Decision, w: World, latency: real, trace: seq<Telemetry.Record>)
    requires Searching(c, j, trace) && |j.failed| < MaxAttempts(c.registry, j.visit.request)
    requires Select(c.registry, j.visit.request, NameSet(j.failed), w.turn) == Ok(d)
    requires Attempt(c.cacheEnabled, j.visit.request, d.provider.name, w).None?
    requires j.visit.request.routing.simulatedFailureProvider == Some(d.provider.name) ==> latency == 0.0
    ensures var effect := Fail(j, s, d.provider.name, w, latency);
            Searching(c, effect.job, trace + effect.records)
  {
    hide Select;
    hide Attempt;
    hide EarlyReply;
    hide CallTrace;
    var r, name := j.visit.request, d.provider.name;
    PathExtends(c, j, w);
    var ws := j.worlds + [w];
    FailureExplained(c.registry, c.cacheEnabled, r, ws, j.failed, name);
    FailureRecordsExtend(j.failed, name);
    TraceExtends(r, FailureRecords(j.failed), ProviderCall(name, false, 0.0), j.latencies, latency);
  }

  /** The loop, from what a request has met. */
  lemma ServeFromPath(c: Config, j: Job)
    requires OnPath(c, j)
    ensures Respond(c.registry, c.cacheEnabled, j.visit, j.lookup, Padded(c, j))
         == ReplyOf(j.visit.requestId, j.visit.request,
                    Continue(c.registry, c.cacheEnabled, j.visit.request, Padded(c, j), j.failed))
  {
    hide Select;
    hide Attempt;
    hide EarlyReply;
    hide Continue;
    hide ReplyOf;
    var r, ws := j.visit.request, Padded(c, j);
    forall i | 0 <= i < |j.failed|
      ensures RoutedTo(c.registry, r, ws, j.failed, i) && Failed(c.cacheEnabled, r, ws, j.failed, i)
    {
      assert RoutedTo(c.registry, r, j.worlds, j.failed, i) && Failed(c.cacheEnabled, r, j.worlds, j.failed, i);
      assert ws[i] == j.worlds[i];
    }
    PathIsFollowed(c.registry, c.cacheEnabled, r, ws, j.failed);
  }

  /** Concluding records the event behind the reply and nothing else. */
  lemma ConcludeEmits(c: Config, j: Job, s: Shared, reply: HttpReply, total: real, trace: seq<Telemetry.Record>)
    requires trace == CallTrace(j.visit.request, CallsBehind(reply), j.latencies)
    ensures var effect := Conclude(c, j, s, reply, total);
            trace + effect.records == Emitted(c.cacheEnabled, j.visit.request, reply, TimesOf(j.latencies, total))
  {
    hide CallsBehind;
    var r, t := j.visit.request, TimesOf(j.latencies, total);
    assert Timed(r, CallsBehind(reply), t) == trace;
  }

  lemma ConcludeServes(c: Config, j: Job, s: Shared, reply: HttpReply, total: real, trace: seq<Telemetry.Record>)
    requires reply == Respond(c.registry, c.cacheEnabled, j.visit, j.lookup, Padded(c, j))
    requires j.writes == WritesBehind(c.cacheEnabled, j.visit, reply)
    requires trace == CallTrace(j.visit.request, CallsBehind(reply), j.latencies)
    ensures var effect := Conclude(c, j, s, reply, total);
            ServedAs(c, effect.job, reply, trace + effect.records)
  {
    hide Respond;
    hide CallsBehind;
    hide WritesBehind;
    ConcludeEmits(c, j, s, reply, total, trace);
    assert Padded(c, Conclude(c, j, s, reply, total).job) == Padded(c, j);
  }

  lemma BeginProgresses(c: Config, j: Job, s: Shared, e: Env)
    requires j == NewJob(j.visit)
    ensures var effect := Begin(c, j, s, e); Progress(c, effect.job, effect.records)
  {
    hide Rejection;
    hide Judge;
    hide KeyValue.Step;
    hide ServedAs;
    hide MaxAttempts;
    var effect := Begin(c, j, s, e);
    var found := if Keyed(j.visit)
                 then KeyValue.Step(s.backend, KeyValue.Read(IdempotencyKey(RawKeyOf(j.visit)), e.at, e.fails)).1
                 else None;
    if Rejection(c.registry, j.visit).Some? {
      EarlyConcludes(c, j, s, e.latency);
    } else {
      var j1 := j.(lookup := Judge(found, j.visit.request));
      if EarlyReply(c.registry, j1.visit, j1.lookup).Some? {
        EarlyConcludes(c, j1, effect.shared, e.latency);
      }
    }
  }

  lemma EarlyConcludes(c: Config, j: Job, s: Shared, total: real)
    requires j == NewJob(j.visit).(lookup := j.lookup)
    requires EarlyReply(c.registry, j.visit, j.lookup).Some?
    ensures var reply := EarlyReply(c.registry, j.visit, j.lookup).value;
            var effect := Conclude(c, j, s, reply, total);
            ServedAs(c, effect.job, reply, effect.records)
  {
    hide EarlyReply;
    var reply := EarlyReply(c.registry, j.visit, j.lookup).value;
    EarlyRepliesDoNothing(c.cacheEnabled, c.registry, j.visit, j.lookup);
    var effect := Conclude(c, j, s, reply, total);
    ConcludeServes(c, j, s, reply, total, []);
    assert [] + effect.records == effect.records;
  }

  /** The search ends without an answer. */
  lemma SearchConcludes(c: Config, j: Job, s: Shared, o: Outcome, total: real, trace: seq<Telemetry.Record>)
    requires OnPath(c, j) && j.writes == []
    requires trace == CallTrace(j.visit.request, FailureRecords(j.failed), j.latencies)
    requires Continue(c.registry, c.cacheEnabled, j.visit.request, Padded(c, j), j.failed) == o
    requires !o.Answered? && Tried(o) == j.failed
    ensures var reply := ReplyOf(j.visit.requestId, j.visit.request, o);
            var effect := Conclude(c, j, s, reply, total);
            ServedAs(c, effect.job, reply, trace + effect.records)
  {
    hide Continue;
    hide OnPath;
    hide CallTrace;
    hide Conclude;
    hide ServedAs;
    ServeFromPath(c, j);
    ConcludeServes(c, j, s, ReplyOf(j.visit.requestId, j.visit.request, o), total, trace);
  }

  lemma RouteProgresses(c: Config, j: Job, s: Shared, e: Env, trace: seq<Telemetry.Record>)
    requires j.phase.Choosing? && Searching(c, j, trace)
    ensures var effect := Route(c, j, s, e); Progress(c, effect.job, trace + effect.records)
  {
    var r := j.visit.request;
    if |j.failed| >= MaxAttempts(c.registry, r) {
      SearchConcludes(c, j, s, Exhausted(j.failed), e.latency, trace);
    } else {
      var selected := Select(c.registry, r, NameSet(j.failed), s.turn);
      if selected.Err? {
        RouteConcludes(c, j, s, e, trace);
      } else {
        RouteDecides(c, j, s, e, trace);
      }
    }
  }

  lemma RouteConcludes(c: Config, j: Job, s: Shared, e: Env, trace: seq<Telemetry.Record>)
    requires j.phase.Choosing? && Searching(c, j, trace) && |j.failed| < MaxAttempts(c.registry, j.visit.request)
    requires Select(c.registry, j.visit.request, NameSet(j.failed), s.turn).Err?
    ensures var effect := Route(c, j, s, e); Progress(c, effect.job, trace + effect.records)
  {
    hide Select;
    hide OnPath;
    hide CallTrace;
    hide ServedAs;
    hide Conclude;
    var r := j.visit.request;
    var w := Met(s.turn, None, Failure);
    var j1 := j.(worlds := j.worlds + [w]);
    PathExtends(c, j, w);
    assert Padded(c, j1)[|j.failed|] == w;
    var o := Continue(c.registry, c.cacheEnabled, r, Padded(c, j1), j.failed);
    UnknownComesFirst(c, j, s.turn);
    SearchConcludes(c, j1, s, o, e.latency, trace);
    ConcludeIsDone(c, j1, s, ReplyOf(j.visit.requestId, r, o), e.latency);
  }

  lemma ConcludeIsDone(c: Config, j: Job, s: Shared, reply: HttpReply, total: real)
    ensures Conclude(c, j, s, reply, total).job.phase == Done(reply)
  {
  }

  /** An unknown model is found out at the first decision. */
  lemma UnknownComesFirst(c: Config, j: Job, turn: nat)
    requires OnPath(c, j)
    ensures Select(c.registry, j.visit.request, NameSet(j.failed), turn) == Err(UnknownModel) ==> j.failed == []
  {
    hide Select;
    if j.failed != [] {
      assert RoutedTo(c.registry, j.visit.request, j.worlds, j.failed, 0);
      SameModelError(c.registry, j.visit.request, NameSet(j.failed[..0]), NameSet(j.failed), j.worlds[0].turn, turn);
    }
  }

  lemma RouteDecides(c: Config, j: Job, s: Shared, e: Env, trace: seq<Telemetry.Record>)
    requires j.phase.Choosing? && Searching(c, j, trace) && |j.failed| < MaxAttempts(c.registry, j.visit.request)
    requires Select(c.registry, j.visit.request, NameSet(j.failed), s.turn).Ok?
    ensures var effect := Route(c, j, s, e); Progress(c, effect.job, trace + effect.records)
  {
    hide Select;
    hide TakesTurn;
    hide CallTrace;
    hide OnPath;
    var d := Select(c.registry, j.visit.request, NameSet(j.failed), s.turn).value;
    var effect := Route(c, j, s, e);
    if j.visit.request.routing.simulatedFailureProvider == Some(d.provider.name) {
      FailKeepsSearching(c, j, effect.shared, d, Met(s.turn, None, Failure), 0.0, trace);
    } else {
      assert trace + [] == trace;
      SamePath(c, j, effect.job);
    }
  }

  /** The phase has no part in the path. */
  lemma SamePath(c: Config, j: Job, j': Job)
    requires OnPath(c, j) && j' == j.(phase := j'.phase)
    ensures OnPath(c, j')
  {
  }

  /** What the call records of an outcome come to at its successful end. */
  lemma AnswerRecords(o: Outcome, failed: seq<string>)
    requires o.Answered? && o.attempted == failed + [o.decision.provider.name]
    ensures CallRecords(o)
         == FailureRecords(failed)
            + if o.cacheHit then [] else [ProviderCall(o.decision.provider.name, true, o.result.estimatedCost)]
  {
    assert o.attempted[..|o.attempted| - 1] == failed;
  }

  lemma LookProgresses(c: Config, j: Job, s: Shared, e: Env, trace: seq<Telemetry.Record>)
    requires j.phase.Looking? && Progress(c, j, trace)
    ensures var effect := Look(c, j, s, e); Progress(c, effect.job, trace + effect.records)
  {
    hide Select;
    hide CallTrace;
    hide OnPath;
    hide KeyValue.Step;
    hide Decoded;
    var effect := Look(c, j, s, e);
    assert trace + [] == trace;
    if effect.job.phase.Calling? {
      SamePath(c, j, effect.job);
    } else {
      var result := effect.job.phase.result;
      var w := Met(j.phase.turn, Some(result), Failure);
      PathExtends(c, j, w);
      SamePath(c, j.(worlds := j.worlds + [w]), effect.job);
      AnswerRecords(OutcomeOf(effect.job), j.failed);
      assert FailureRecords(j.failed) + [] == FailureRecords(j.failed);
      assert Fills(FillsOf(c.cacheEnabled, j.visit.request, OutcomeOf(effect.job))) == [];
      assert effect.job.worlds[|j.failed|] == w;
    }
  }

  lemma ReturnProgresses(c: Config, j: Job, s: Shared, e: Env, trace: seq<Telemetry.Record>)
    requires j.phase.Calling? && Progress(c, j, trace)
    ensures var effect := Return(c, j, s, e); Progress(c, effect.job, trace + effect.records)
  {
    hide Select;
    hide CallTrace;
    hide OnPath;
    var d, w := j.phase.decision, Met(j.phase.turn, None, e.answer);
    match e.answer
    case Failure =>
      FailKeepsSearching(c, j, s, d, w, e.latency, trace);
    case Success(result) =>
      var effect := Return(c, j, s, e);
      var o := Answered(d, result, false, j.failed + [d.provider.name]);
      PathExtends(c, j, w);
      WorldsOnly(c, j.(worlds := j.worlds + [w]), effect.job);
      AnswerRecords(o, j.failed);
      TraceExtends(j.visit.request, FailureRecords(j.failed),
                   ProviderCall(d.provider.name, true, result.estimatedCost), j.latencies, e.latency);
  }

  /** Nor have the latencies and the writes. */
  lemma WorldsOnly(c: Config, j: Job, j': Job)
    requires OnPath(c, j) && j' == j.(phase := j'.phase, latencies := j'.latencies, writes := j'.writes)
    ensures OnPath(c, j')
  {
  }

  lemma FillProgresses(c: Config, j: Job, s: Shared, e: Env, trace: seq<Telemetry.Record>)
    requires j.phase.Filling? && Progress(c, j, trace)
    ensures var effect := FillCache(c, j, s, e); Progress(c, effect.job, trace + effect.records)
  {
    hide Select;
    hide Attempt;
    hide CallTrace;
    hide OnPath;
    hide CallRecords;
    hide KeyValue.Step;
    var effect := FillCache(c, j, s, e);
    assert trace + [] == trace;
    WorldsOnly(c, j, effect.job);
  }

  lemma AnswerProgresses(c: Config, j: Job, s: Shared, e: Env, trace: seq<Telemetry.Record>)
    requires j.phase.Answering? && Progress(c, j, trace)
    ensures var effect := Answer(c, j, s, e); Progress(c, effect.job, trace + effect.records)
  {
    hide Select;
    hide Attempt;
    hide CallTrace;
    hide OnPath;
    hide CallRecords;
    hide KeyValue.Step;
    hide BodyOf;
    hide ServedAs;
    hide WritesBehind;
    var v, o := j.visit, OutcomeOf(j);
    var effect := Answer(c, j, s, e);
    var reply := Completed(BodyOf(v.requestId, v.request, o));
    ContinueAnswers(c, j, o);
    ServeFromPath(c, j);
    CallsBehindOutcome(v.requestId, v.request, o);
    WritesBehindOutcome(c.cacheEnabled, v, o);
    HeadersOfPath(c, j);
    var stored := if Keyed(v) then [Store(v.client.value, v.key.value, v.request, reply.body)] else [];
    var j1 := j.(writes := j.writes + stored);
    assert !Keyed(v) ==> j.writes + stored == j.writes;
    assert Padded(c, j1) == Padded(c, j);
    ConcludeServes(c, j1, effect.shared, reply, e.latency, trace);
  }

  lemma HeadersOfPath(c: Config, j: Job)
    requires OnPath(c, j)
    ensures HeadersValid(j.visit) && (Keyed(j.visit) <==> j.visit.client.Some? && j.visit.key.Some?)
  {
  }

  lemma ContinueAnswers(c: Config, j: Job, o: Outcome)
    requires Succeeded(c, j, o)
    ensures Continue(c.registry, c.cacheEnabled, j.visit.request, Padded(c, j), j.failed) == o
  {
    hide Select;
    hide Attempt;
    hide OnPath;
    assert Padded(c, j)[|j.failed|] == j.worlds[|j.failed|];
  }

  lemma AdvanceProgresses(c: Config, j: Job, s: Shared, e: Env, trace: seq<Telemetry.Record>)
    requires Progress(c, j, trace)
    ensures var effect := Advance(c, j, s, e); Progress(c, effect.job, trace + effect.records)
  {
    match j.phase {
      case Arrived =>
        BeginProgresses(c, j, s, e);
        assert [] + Begin(c, j, s, e).records == Begin(c, j, s, e).records;
      case Choosing => RouteProgresses(c, j, s, e, trace);
      case Looking(_, _) => LookProgresses(c, j, s, e, trace);
      case Calling(_, _) => ReturnProgresses(c, j, s, e, trace);
      case Filling(_, _) => FillProgresses(c, j, s, e, trace);
      case Answering(_, _, _) => AnswerProgresses(c, j, s, e, trace);
      case Done(_) => assert trace + [] == trace;
    }
  }

  // ---------------------------------------------------------------------------------------------
  // Every run refines the endpoint
  // ---------------------------------------------------------------------------------------------

  lemma ProjectOneMore(log: seq<Tagged>, t: Tagged, request: nat)
    ensures Project(log + [t], request) == Project(log, request) + if t.request == request then [t.record] else []
  {
    assert (log + [t])[..|log|] == log;
  }

  lemma {:induction false} ProjectTagged(log: seq<Tagged>, k: nat, records: seq<Telemetry.Record>, request: nat)
    ensures Project(log + TagAll(k, records), request)
         == Project(log, request) + if request == k then records else []
    decreases |records|
  {
    hide Project;
    if records == [] {
      assert log + TagAll(k, records) == log;
      assert Project(log, request) + [] == Project(log, request);
    } else {
      var n := |records| - 1;
      ProjectTagged(log, k, records[..n], request);
      ProjectOneMore(log + TagAll(k, records[..n]), Tagged(k, records[n]), request);
      assert log + TagAll(k, records) == (log + TagAll(k, records[..n])) + [Tagged(k, records[n])];
      assert records == records[..n] + [records[n]];
    }
  }

  /** Every request has come as far as its own records say, and every record is some request's. */
  ghost predicate AllProgress(c: Config, s: State) {
    && (forall k :: 0 <= k < |s.jobs| ==> Progress(c, s.jobs[k], Project(s.log, k)))
    && (forall i :: 0 <= i < |s.log| ==> s.log[i].request < |s.jobs|)
  }

  lemma {:induction false} NothingOfLater(log: seq<Tagged>, n: nat)
    requires forall i :: 0 <= i < |log| ==> log[i].request < n
    ensures Project(log, n) == []
  {
    if log != [] {
      NothingOfLater(log[..|log| - 1], n);
    }
  }

  lemma StepProgresses(c: Config, s: State, e: Action)
    requires AllProgress(c, s) && Enabled(s, e)
    ensures AllProgress(c, Step(c, s, e))
  {
    hide Progress;
    hide Advance;
    hide Project;
    var s' := Step(c, s, e);
    match e
    case Arrive(v) =>
      NothingOfLater(s.log, |s.jobs|);
      FreshProgress(c, v);
    case Move(k, env) =>
      var effect := Advance(c, s.jobs[k], s.shared, env);
      AdvanceProgresses(c, s.jobs[k], s.shared, env, Project(s.log, k));
      forall i | 0 <= i < |s'.jobs| ensures Progress(c, s'.jobs[i], Project(s'.log, i)) {
        ProjectTagged(s.log, k, effect.records, i);
        if i != k {
          assert Project(s.log, i) + [] == Project(s.log, i);
        }
      }
      assert forall i :: 0 <= i < |effect.records| ==> TagAll(k, effect.records)[i].request == k;
  }

  lemma FreshProgress(c: Config, v: Visit)
    ensures Progress(c, NewJob(v), [])
  {
  }

  lemma {:induction false} LeadsProgresses(c: Config, before: State, events: seq<Action>, after: State)
    requires AllProgress(c, before) && Leads(c, before, events, after)
    ensures AllProgress(c, after)
    decreases |events|
  {
    hide AllProgress;
    hide Step;
    hide Enabled;
    if events != [] {
      var last := events[|events| - 1];
      var s :| Leads(c, before, events[..|events| - 1], s) && Enabled(s, last) && after == Step(c, s, last);
      LeadsProgresses(c, before, events[..|events| - 1], s);
      StepProgresses(c, s, last);
    }
  }

  /** Whatever else goes on, a finished request got the endpoint's reply, made the endpoint's writes and left the
      endpoint's records, for the lookup and the worlds it met. */
  lemma RunsRefineEndpoint(c: Config, start: real, s: State, k: nat)
    requires Reachable(c, start, s) && k < |s.jobs| && s.jobs[k].phase.Done?
    ensures ServedAs(c, s.jobs[k], s.jobs[k].phase.reply, Project(s.log, k))
  {
    hide ServedAs;
    hide Progress;
    hide Project;
    var events :| Leads(c, Initial(start), events, s);
    LeadsProgresses(c, Initial(start), events, s);
    DoneWasServed(c, s.jobs[k], Project(s.log, k));
  }

  lemma DoneWasServed(c: Config, j: Job, trace: seq<Telemetry.Record>)
    requires Progress(c, j, trace) && j.phase.Done?
    ensures ServedAs(c, j, j.phase.reply, trace)
  {
  }

  // ---------------------------------------------------------------------------------------------
  // Conservation at quiescence
  // ---------------------------------------------------------------------------------------------

  ghost predicate Quiescent(s: State) {
    forall k :: 0 <= k < |s.jobs| ==> s.jobs[k].phase.Done?
  }

  function ServedRequest(c: Config, j: Job): Served {
    Served(j.visit, j.lookup, Padded(c, j), TimesOf(j.latencies, j.total))
  }

  function AllServed(c: Config, s: State): (qs: seq<Served>)
    ensures |qs| == |s.jobs|
    ensures forall k :: 0 <= k < |qs| ==> qs[k] == ServedRequest(c, s.jobs[k]) && Enough(c.registry, qs[k])
  {
    seq(|s.jobs|, k requires 0 <= k < |s.jobs| => ServedRequest(c, s.jobs[k]))
  }

  lemma QuiescentInterleaves(c: Config, start: real, s: State)
    requires Reachable(c, start, s) && Quiescent(s)
    ensures Interleaves(s.log, Traces(AllFinished(c.registry, c.cacheEnabled, AllServed(c, s))))
  {
    hide Respond;
    hide Emitted;
    hide Project;
    var fs := AllFinished(c.registry, c.cacheEnabled, AllServed(c, s));
    forall k | 0 <= k < |s.jobs| ensures Project(s.log, k) == Traces(fs)[k] {
      RunsRefineEndpoint(c, start, s, k);
    }
    RecordsHaveOwners(c, start, s);
  }

  lemma RecordsHaveOwners(c: Config, start: real, s: State)
    requires Reachable(c, start, s)
    ensures forall i :: 0 <= i < |s.log| ==> s.log[i].request < |s.jobs|
  {
    hide Progress;
    var events :| Leads(c, Initial(start), events, s);
    LeadsProgresses(c, Initial(start), events, s);
  }

  /** The failed attempts of all requests, by their replies. */
  function FailedAttemptsOf(jobs: seq<Job>): nat
    requires forall k :: 0 <= k < |jobs| ==> jobs[k].phase.Done?
  {
    if jobs == [] then 0
    else FailedAttemptsOf(jobs[..|jobs| - 1]) + FailedAttempts(jobs[|jobs| - 1].phase.reply)
  }

  lemma {:induction false} SameFailedAttempts(jobs: seq<Job>, fs: seq<Finished>)
    requires |jobs| == |fs|
    requires forall k :: 0 <= k < |jobs| ==> jobs[k].phase.Done? && jobs[k].phase.reply == fs[k].reply
    ensures FailedAttemptsOf(jobs) == TotalFailedAttempts(fs)
  {
    hide FailedAttempts;
    if jobs != [] {
      SameFailedAttempts(jobs[..|jobs| - 1], fs[..|fs| - 1]);
    }
  }

  /** What the replies of all requests add up to. */
  function RepliesTotal(jobs: seq<Job>, value: HttpReply -> int): int
    requires forall k :: 0 <= k < |jobs| ==> jobs[k].phase.Done?
  {
    if jobs == [] then 0 else RepliesTotal(jobs[..|jobs| - 1], value) + value(jobs[|jobs| - 1].phase.reply)
  }

  lemma {:induction false} SameTotals(jobs: seq<Job>, fs: seq<Finished>, value: HttpReply -> int)
    requires |jobs| == |fs|
    requires forall k :: 0 <= k < |jobs| ==> jobs[k].phase.Done? && jobs[k].phase.reply == fs[k].reply
    ensures RepliesTotal(jobs, value) == Totals(fs, value)
  {
    if jobs != [] {
      SameTotals(jobs[..|jobs| - 1], fs[..|fs| - 1], value);
    }
  }

  /** When no request is in progress, in every run: the successes of all providers are the completed requests that
      neither the cache nor a replay answered, and their failures are the failed attempts that the replies report;
      completed, hits, replays and fallbacks are what the replies add up to. */
  lemma QuiescenceIsConserved(c: Config, start: real, s: State, limit: nat, names: seq<string>)
    requires Reachable(c, start, s) && Quiescent(s)
    requires Lists(names, Telemetry.After(limit, Records(s.log)).providers)
    ensures var summary := Telemetry.After(limit, Records(s.log));
            && SumOver(summary.providers, names, SUCCESSES)
                 == summary.completedRequests - summary.cacheHits - summary.cacheReplays
            && SumOver(summary.providers, names, FAILURES) == FailedAttemptsOf(s.jobs)
            && summary.completedRequests == RepliesTotal(s.jobs, ANSWERS)
            && summary.cacheHits == RepliesTotal(s.jobs, HITS)
            && summary.cacheReplays == RepliesTotal(s.jobs, REPLAYS)
            && summary.fallbackCount == RepliesTotal(s.jobs, REPORTED_FALLBACKS)
  {
    hide Respond;
    hide Emitted;
    hide Telemetry.After;
    var qs := AllServed(c, s);
    var fs := AllFinished(c.registry, c.cacheEnabled, qs);
    QuiescentInterleaves(c, start, s);
    TelemetryIsConserved(limit, c.registry, c.cacheEnabled, qs, s.log, names);
    forall k | 0 <= k < |s.jobs| ensures s.jobs[k].phase.reply == fs[k].reply {
      RunsRefineEndpoint(c, start, s, k);
    }
    SameFailedAttempts(s.jobs, fs);
    SameTotals(s.jobs, fs, ANSWERS);
    SameTotals(s.jobs, fs, HITS);
    SameTotals(s.jobs, fs, REPLAYS);
    SameTotals(s.jobs, fs, REPORTED_FALLBACKS);
  }
}
