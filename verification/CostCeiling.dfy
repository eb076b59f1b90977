/** Deterministic providers (control_plane/providers/deterministic.py) and the end-to-end cost ceiling: through
    routing, any number of fallbacks, the cache the gateway fills itself, and replays, no answer costs more than the
    caller allowed. */
module CostCeiling {
  import opened Contracts
  import opened Routing
  import opened Fallback
  import opened ResponseCache
  import opened Gateway
  import opened Service
  import KeyValue

  // ---------------------------------------------------------------------------------------------
  // The provider
  // ---------------------------------------------------------------------------------------------

  function LastUserContent(messages: seq<Message>): string
    requires HasUserMessage(messages)
  {
    var last := |messages| - 1;
    if messages[last].role.User? then messages[last].content else LastUserContent(messages[..last])
  }

  function Smaller(a: nat, b: nat): nat {
    if a <= b then a else b
  }

  function PriceOf(tokens: nat, pricePerMillion: real): real {
    tokens as real * pricePerMillion / 1000000.0
  }

  function Complete(p: Descriptor, r: Request): ProviderResult
    requires HasUserMessage(r.messages)
  {
    var promptTokens := PromptTokens(r.messages);
    var text := "[" + p.name + "] " + LastUserContent(r.messages);
    var completionTokens := Smaller(r.maxTokens, AtLeastOne(|text| / 4));
    ProviderResult(text, promptTokens, completionTokens, Stop,
                   PriceOf(promptTokens, p.inputPrice) + PriceOf(completionTokens, p.outputPrice))
  }

  lemma {:induction false} LastUserMeans(messages: seq<Message>) returns (i: nat)
    requires HasUserMessage(messages)
    ensures i < |messages| && messages[i].role.User? && LastUserContent(messages) == messages[i].content
    ensures forall j :: i < j < |messages| ==> !messages[j].role.User?
  {
    var last := |messages| - 1;
    if messages[last].role.User? {
      i := last;
    } else {
      i := LastUserMeans(messages[..last]);
    }
  }

  /** What a deterministic provider answers: its name and the last user message, in a quarter as many tokens as
      characters but at least one and never more than asked for, at its prices by the million. */
  lemma CompleteMeans(p: Descriptor, r: Request) returns (i: nat)
    requires HasUserMessage(r.messages)
    ensures i < |r.messages| && r.messages[i].role.User?
    ensures forall j :: i < j < |r.messages| ==> !r.messages[j].role.User?
    ensures var result := Complete(p, r);
            var characters, tokens := |result.text|, result.completionTokens;
            && result.text == "[" + p.name + "] " + r.messages[i].content
            && result.promptTokens == PromptTokens(r.messages)
            && 0 <= tokens <= r.maxTokens && (tokens > 1 ==> 4 * tokens <= characters)
            && (tokens < r.maxTokens ==> tokens >= 1 && characters < 4 * (tokens + 1))
            && result.finishReason == Stop
            && result.estimatedCost * 1000000.0
                 == result.promptTokens as real * p.inputPrice + tokens as real * p.outputPrice
  {
    i := LastUserMeans(r.messages);
  }

  lemma MoreTokensCostMore(a: nat, b: nat, price: real)
    requires a <= b && price >= 0.0
    ensures PriceOf(a, price) <= PriceOf(b, price)
  {
    var x, y := a as real, b as real;
    assert (y - x) * price >= 0.0;
    assert (y - x) * price == y * price - x * price;
  }

  /** The routing estimate is an upper bound of what the provider charges. */
  lemma EstimateCoversCost(p: Descriptor, r: Request)
    requires HasUserMessage(r.messages) && p.outputPrice >= 0.0
    ensures Complete(p, r).estimatedCost <= EstimateCost(p, r)
  {
    var text := "[" + p.name + "] " + LastUserContent(r.messages);
    MoreTokensCostMore(Smaller(r.maxTokens, AtLeastOne(|text| / 4)), r.maxTokens, p.outputPrice);
  }

  /** A deterministic provider answers alike whatever has the same cache key. */
  lemma SameKeySameAnswer(p: Descriptor, r: Request, r': Request)
    requires HasUserMessage(r.messages) && MaterialOf(r, p.name) == MaterialOf(r', p.name)
    ensures Complete(p, r) == Complete(p, r')
  {
  }

  // ---------------------------------------------------------------------------------------------
  // Runs with deterministic providers
  // ---------------------------------------------------------------------------------------------

  ghost predicate ValidPrices(registry: seq<Descriptor>) {
    forall p :: p in registry ==> p.inputPrice >= 0.0 && p.outputPrice >= 0.0
  }

  /** Requests have been validated, and a provider that answers answers as a deterministic one. */
  ghost predicate Deterministic(c: Config, s: State, a: Action) {
    match a
    case Arrive(v) => HasUserMessage(v.request.messages)
    case Move(k, env) =>
      k < |s.jobs| && s.jobs[k].phase.Calling? && env.answer.Success? &&
      HasUserMessage(s.jobs[k].visit.request.messages) ==>
        forall p :: p in c.registry && p.name == s.jobs[k].phase.decision.provider.name ==>
                      env.answer.result == Complete(p, s.jobs[k].visit.request)
  }

  /** `s` is reached from an empty backend, by any interleaving, all providers being deterministic. */
  ghost predicate ReachedBy(c: Config, start: real, actions: seq<Action>, s: State)
    decreases |actions|
  {
    if actions == [] then s == Initial(start)
    else
      var last := actions[|actions| - 1];
      exists before :: ReachedBy(c, start, actions[..|actions| - 1], before) &&
                       Enabled(before, last) && Deterministic(c, before, last) && s == Step(c, before, last)
  }

  // ---------------------------------------------------------------------------------------------
  // What the backend and the requests hold
  // ---------------------------------------------------------------------------------------------

  /** The provider gives this result to the requests of this cache key. */
  ghost predicate Produces(p: Descriptor, m: Material, result: ProviderResult) {
    exists r: Request :: HasUserMessage(r.messages) && MaterialOf(r, p.name) == m && result == Complete(p, r)
  }

  /** The cost is at most the reported maximum, and that is at most the limit of the request. */
  predicate WithinLimit(r: Request, body: Completion) {
    && body.estimatedCost <= body.maximumCost
    && (r.routing.maxEstimatedCost.Some? ==> body.maximumCost <= r.routing.maxEstimatedCost.value)
  }

  ghost predicate HonestEntry(registry: seq<Descriptor>, key: Key, payload: Payload<Completion>) {
    match key
    case ResponseKey(m) =>
      payload.ResultPayload? && forall p :: p in registry && p.name == m.provider ==> Produces(p, m, payload.result)
    case IdempotencyKey(_) =>
      payload.RecordPayload? && WithinLimit(payload.fingerprint, payload.response)
  }

  ghost predicate HonestBackend(registry: seq<Descriptor>, b: Backend) {
    forall key :: key in b ==> HonestEntry(registry, key, b[key].value)
  }

  /** A provider that satisfies the constraints of the request, with its estimate. */
  predicate GoodDecision(registry: seq<Descriptor>, r: Request, d: Decision) {
    && d.provider in registry
    && d.estimatedCost == EstimateCost(d.provider, r)
    && (r.routing.maxEstimatedCost.Some? ==> d.estimatedCost <= r.routing.maxEstimatedCost.value)
  }

  ghost predicate HonestJob(registry: seq<Descriptor>, j: Job) {
    && HasUserMessage(j.visit.request.messages)
    && var r := j.visit.request;
    match j.phase
    case Looking(d, _) => GoodDecision(registry, r, d)
    case Calling(d, _) => GoodDecision(registry, r, d)
    case Filling(d, result) =>
      GoodDecision(registry, r, d) &&
      forall p :: p in registry && p.name == d.provider.name ==> result == Complete(p, r)
    case Answering(d, result, _) => GoodDecision(registry, r, d) && result == Complete(d.provider, r)
    case Done(reply) =>
      (match reply
       case Completed(body) => WithinLimit(r, body)
       case ReplayedCompletion(body) => WithinLimit(r, body)
       case _ => true)
    case _ => true
  }

  ghost predicate Honest(c: Config, s: State) {
    && HonestBackend(c.registry, s.shared.backend)
    && forall k :: 0 <= k < |s.jobs| ==> HonestJob(c.registry, s.jobs[k])
  }

  lemma OpKeepsHonest(registry: seq<Descriptor>, b: Backend, op: KeyValue.Op<Key, Payload<Completion>>)
    requires HonestBackend(registry, b) && (op.Write? ==> HonestEntry(registry, op.key, op.value))
    ensures HonestBackend(registry, KeyValue.Step(b, op).0)
    ensures KeyValue.Step(b, op).1.Some? ==> HonestEntry(registry, op.key, KeyValue.Step(b, op).1.value)
  {
    hide HonestEntry;
  }

  lemma DecisionIsGood(registry: seq<Descriptor>, r: Request, excluded: set<string>, turn: nat)
    requires Select(registry, r, excluded, turn).Ok?
    ensures GoodDecision(registry, r, Select(registry, r, excluded, turn).value)
  {
    hide Select;
    SelectionRespectsConstraints(registry, r, excluded, turn);
  }

  /** What an honest cache holds for a provider is what the provider would answer now. */
  lemma HonestEntryIsComplete(registry: seq<Descriptor>, r: Request, p: Descriptor, payload: Payload<Completion>)
    requires HasUserMessage(r.messages) && p in registry
    requires HonestEntry(registry, ResponseKey(MaterialOf(r, p.name)), payload)
    ensures payload == ResultPayload(Complete(p, r))
  {
    hide Complete;
    var m := MaterialOf(r, p.name);
    assert Produces(p, m, payload.result);
    var r': Request :| HasUserMessage(r'.messages) && MaterialOf(r', p.name) == m && payload.result == Complete(p, r');
    SameKeySameAnswer(p, r', r);
  }

  lemma AnswerIsWithinLimit(registry: seq<Descriptor>, j: Job)
    requires ValidPrices(registry) && j.phase.Answering? && HonestJob(registry, j)
    ensures WithinLimit(j.visit.request, BodyOf(j.visit.requestId, j.visit.request, OutcomeOf(j)))
  {
    hide Complete;
    EstimateCoversCost(j.phase.decision.provider, j.visit.request);
  }

  lemma BeginKeepsHonest(c: Config, j: Job, s: Shared, e: Env)
    requires HasUserMessage(j.visit.request.messages) && HonestBackend(c.registry, s.backend)
    ensures var effect := Begin(c, j, s, e);
            HonestJob(c.registry, effect.job) && HonestBackend(c.registry, effect.shared.backend)
  {
    hide KeyValue.Step;
    hide Rejection;
    hide HonestBackend;
    RejectionIsNoAnswer(c.registry, j.visit);
    if Keyed(j.visit) {
      OpKeepsHonest(c.registry, s.backend, KeyValue.Read(IdempotencyKey(RawKeyOf(j.visit)), e.at, e.fails));
    }
  }

  lemma RejectionIsNoAnswer(registry: seq<Descriptor>, v: Visit)
    ensures var reply := Rejection(registry, v);
            reply.Some? ==> !reply.value.Completed? && !reply.value.ReplayedCompletion?
  {
  }

  lemma RouteKeepsHonest(c: Config, j: Job, s: Shared, e: Env)
    requires HonestJob(c.registry, j) && j.phase.Choosing?
    ensures HonestJob(c.registry, Route(c, j, s, e).job) && Route(c, j, s, e).shared.backend == s.backend
  {
    hide Select;
    hide GoodDecision;
    hide TakesTurn;
    if Select(c.registry, j.visit.request, NameSet(j.failed), s.turn).Ok? {
      DecisionIsGood(c.registry, j.visit.request, NameSet(j.failed), s.turn);
    }
  }

  lemma LookKeepsHonest(c: Config, j: Job, s: Shared, e: Env)
    requires HonestJob(c.registry, j) && j.phase.Looking? && HonestBackend(c.registry, s.backend)
    ensures var effect := Look(c, j, s, e);
            HonestJob(c.registry, effect.job) && HonestBackend(c.registry, effect.shared.backend)
  {
    hide KeyValue.Step;
    hide HonestBackend;
    hide HonestEntry;
    hide Complete;
    var p := j.phase.decision.provider;
    var read := KeyValue.Read(ResponseKey(MaterialOf(j.visit.request, p.name)), e.at, e.fails);
    OpKeepsHonest(c.registry, s.backend, read);
    var found := KeyValue.Step(s.backend, read).1;
    if found.Some? {
      HonestEntryIsComplete(c.registry, j.visit.request, p, found.value);
    }
  }

  lemma FillKeepsHonest(c: Config, j: Job, s: Shared, e: Env)
    requires HonestJob(c.registry, j) && j.phase.Filling? && HonestBackend(c.registry, s.backend)
    ensures var effect := FillCache(c, j, s, e);
            HonestJob(c.registry, effect.job) && HonestBackend(c.registry, effect.shared.backend)
  {
    hide KeyValue.Step;
    hide HonestBackend;
    hide Complete;
    var r, d, result := j.visit.request, j.phase.decision, j.phase.result;
    var key := ResponseKey(MaterialOf(r, d.provider.name));
    forall p | p in c.registry && p.name == d.provider.name ensures Produces(p, key.material, result) {
      assert MaterialOf(r, p.name) == key.material && result == Complete(p, r);
    }
    OpKeepsHonest(c.registry, s.backend, KeyValue.Write(key, ResultPayload(result), c.cacheTtl, e.at, e.fate));
  }

  lemma AnswerKeepsHonest(c: Config, j: Job, s: Shared, e: Env)
    requires ValidPrices(c.registry)
    requires HonestJob(c.registry, j) && j.phase.Answering? && HonestBackend(c.registry, s.backend)
    ensures var effect := Answer(c, j, s, e);
            HonestJob(c.registry, effect.job) && HonestBackend(c.registry, effect.shared.backend)
  {
    hide KeyValue.Step;
    hide HonestBackend;
    hide Complete;
    hide BodyOf;
    hide WithinLimit;
    AnswerIsWithinLimit(c.registry, j);
    var v, body := j.visit, BodyOf(j.visit.requestId, j.visit.request, OutcomeOf(j));
    if Keyed(v) {
      OpKeepsHonest(
        c.registry, s.backend,
        KeyValue.Write(IdempotencyKey(RawKeyOf(v)), RecordPayload(v.request, body), c.recordTtl, e.at, e.fate));
    }
  }

  lemma ReturnKeepsHonest(c: Config, j: Job, s: Shared, e: Env)
    requires HonestJob(c.registry, j) && j.phase.Calling?
    requires e.answer.Success? ==>
               forall p :: p in c.registry && p.name == j.phase.decision.provider.name ==>
                             e.answer.result == Complete(p, j.visit.request)
    ensures HonestJob(c.registry, Return(c, j, s, e).job) && Return(c, j, s, e).shared == s
  {
    hide Complete;
  }

  lemma AdvanceKeepsHonest(c: Config, j: Job, s: Shared, e: Env)
    requires ValidPrices(c.registry) && HonestJob(c.registry, j) && HonestBackend(c.registry, s.backend)
    requires j.phase.Calling? && e.answer.Success? ==>
               forall p :: p in c.registry && p.name == j.phase.decision.provider.name ==>
                             e.answer.result == Complete(p, j.visit.request)
    ensures var effect := Advance(c, j, s, e);
            HonestJob(c.registry, effect.job) && HonestBackend(c.registry, effect.shared.backend)
  {
    hide HonestBackend;
    hide Complete;
    hide Begin;
    hide Route;
    hide Look;
    hide Return;
    hide FillCache;
    hide Answer;
    match j.phase {
      case Arrived => BeginKeepsHonest(c, j, s, e);
      case Choosing => RouteKeepsHonest(c, j, s, e);
      case Looking(_, _) => LookKeepsHonest(c, j, s, e);
      case Calling(_, _) => ReturnKeepsHonest(c, j, s, e);
      case Filling(_, _) => FillKeepsHonest(c, j, s, e);
      case Answering(_, _, _) => AnswerKeepsHonest(c, j, s, e);
      case Done(_) =>
    }
  }

  lemma StepKeepsHonest(c: Config, s: State, a: Action)
    requires ValidPrices(c.registry) && Honest(c, s) && Enabled(s, a) && Deterministic(c, s, a)
    ensures Honest(c, Step(c, s, a))
  {
    hide HonestBackend;
    hide Advance;
    hide Complete;
    hide ValidPrices;
    if a.Move? {
      IsHonest(c, s.jobs[a.job]);
      AdvanceKeepsHonest(c, s.jobs[a.job], s.shared, a.env);
    }
  }

  lemma IsHonest(c: Config, j: Job)
    requires HonestJob(c.registry, j)
    ensures HasUserMessage(j.visit.request.messages)
  {
  }

  lemma {:induction false} RunIsHonest(c: Config, start: real, actions: seq<Action>, s: State)
    requires ValidPrices(c.registry) && ReachedBy(c, start, actions, s)
    ensures Honest(c, s)
    decreases |actions|
  {
    hide Honest;
    hide Step;
    hide Deterministic;
    hide ValidPrices;
    if actions == [] {
      InitiallyHonest(c, start);
    } else {
      var last := actions[|actions| - 1];
      var before :| ReachedBy(c, start, actions[..|actions| - 1], before) &&
                    Enabled(before, last) && Deterministic(c, before, last) && s == Step(c, before, last);
      RunIsHonest(c, start, actions[..|actions| - 1], before);
      StepKeepsHonest(c, before, last);
    }
  }

  lemma InitiallyHonest(c: Config, start: real)
    ensures Honest(c, Initial(start))
  {
  }

  /** Whatever the gateway has put in the cache for a provider, at any point of any run, is what that provider would
      answer now to every request with the same key. */
  lemma CachedIsComplete(c: Config, start: real, actions: seq<Action>, s: State, r: Request, p: Descriptor)
    requires ValidPrices(c.registry) && ReachedBy(c, start, actions, s)
    requires HasUserMessage(r.messages) && p in c.registry
    requires ResponseKey(MaterialOf(r, p.name)) in s.shared.backend
    ensures s.shared.backend[ResponseKey(MaterialOf(r, p.name))].value == ResultPayload(Complete(p, r))
  {
    hide ReachedBy;
    hide Complete;
    RunIsHonest(c, start, actions, s);
    var key := ResponseKey(MaterialOf(r, p.name));
    HonestEntryIsComplete(c.registry, r, p, s.shared.backend[key].value);
  }

  /** End to end: in every run from an empty backend with deterministic providers and prices that are not negative,
      every 200, whether fresh, from the cache or replayed, and after any number of fallbacks, costs at most the
      reported maximum, and that is at most the limit of the request. */
  lemma AnswersStayBelowCeiling(c: Config, start: real, actions: seq<Action>, s: State, k: nat)
    requires ValidPrices(c.registry) && ReachedBy(c, start, actions, s)
    requires k < |s.jobs| && s.jobs[k].phase.Done?
    ensures var reply := s.jobs[k].phase.reply;
            reply.Completed? || reply.ReplayedCompletion? ==> WithinLimit(s.jobs[k].visit.request, reply.body)
  {
    hide ReachedBy;
    RunIsHonest(c, start, actions, s);
    assert HonestJob(c.registry, s.jobs[k]);
  }
}
