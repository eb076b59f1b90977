/** The chat completion endpoint (control_plane/main.py:245-450) around the fallback loop: the checks before it, the
    response assembled after it, what it writes to the backend and what it records in the telemetry. */
module Gateway {
  import opened Contracts
  import opened Routing
  import opened Fallback
  import opened FallbackTheorems
  import opened Idempotency
  import opened RoutingTheorems
  import Telemetry

  /** The response body with its routing metadata (main.py:392-420). */
  datatype Completion = Completion(
    requestId: string,
    model: string,
    text: string,
    finishReason: FinishReason,
    promptTokens: int,
    completionTokens: int,
    totalTokens: int,
    provider: string,
    policy: string,
    eligibleProviders: seq<string>,
    attemptedProviders: seq<string>,
    fallbackCount: int,
    simulated: bool,
    cacheHit: bool,
    estimatedCost: real,
    maximumCost: real)

  /** A request with the headers the endpoint reads. */
  datatype Visit = Visit(requestId: string, request: Request, client: Option<string>, key: Option<string>)

  /** What Python's `strip` removes, among the characters a header can hold. */
  predicate IsSpace(c: char) {
    || c == ' ' || '\t' <= c <= '\r' || '\U{1C}' <= c <= '\U{1F}' || c == '\U{85}' || c == '\U{A0}'
  }

  predicate IsBlank(s: string) {
    forall i :: 0 <= i < |s| ==> IsSpace(s[i])
  }

  /** Both idempotency headers or none, and not blank. */
  predicate HeadersValid(v: Visit) {
    v.client.Some? == v.key.Some? && (v.client.Some? ==> !IsBlank(v.client.value) && !IsBlank(v.key.value))
  }

  predicate Keyed(v: Visit) {
    HeadersValid(v) && v.client.Some?
  }

  function RawKeyOf(v: Visit): string
    requires Keyed(v)
  {
    RawKey(v.client.value, v.key.value)
  }

  datatype HttpReply =
    | StreamingNotImplemented              // 501
    | FailureTargetUnknown                 // 422
    | FailureTargetNotSimulated            // 422
    | HeadersRejected                      // 400
    | ConflictRejected                     // 409
    | ReplayedCompletion(body: Completion) // 200
    | Completed(body: Completion)          // 200
    | ModelNotFound                        // 404
    | NotEligible                          // 422
    | Unavailable(attempted: seq<string>)  // 503

  function PolicyName(p: Policy): string {
    match p
    case Adaptive => "adaptive"
    case RoundRobin => "round_robin"
    case LowestCost => "lowest_cost"
    case LowestLatency => "lowest_latency"
    case HighestQuality => "highest_quality"
    case SingleProvider => "single_provider"
  }

  function BodyOf(requestId: string, r: Request, o: Outcome): Completion
    requires o.Answered?
  {
    Completion(requestId, r.model, o.result.text, o.result.finishReason,
               o.result.promptTokens, o.result.completionTokens, o.result.promptTokens + o.result.completionTokens,
               o.decision.provider.name, if o.decision.direct then "direct" else PolicyName(r.routing.policy),
               o.decision.eligible, o.attempted, |o.attempted| - 1,
               o.decision.provider.simulated, o.cacheHit, o.result.estimatedCost, o.decision.estimatedCost)
  }

  /** Failure injection is limited to registered, simulated providers. */
  predicate TargetAllowed(registry: seq<Descriptor>, target: Option<string>) {
    target.Some? ==> var i := IndexOfName(registry, target.value); i.Some? && registry[i.value].simulated
  }

  /** The reply, if neither the replay check nor the loop is reached (lines 261-295). */
  function Rejection(registry: seq<Descriptor>, v: Visit): Option<HttpReply> {
    var target := v.request.routing.simulatedFailureProvider;
    if v.request.stream then Some(StreamingNotImplemented)
    else if target.Some? && IndexOfName(registry, target.value).None? then Some(FailureTargetUnknown)
    else if !TargetAllowed(registry, target) then Some(FailureTargetNotSimulated)
    else if !HeadersValid(v) then Some(HeadersRejected)
    else None
  }

  /** The reply, if the loop is not reached (lines 261-326); `lookup` is what the replay check finds. */
  function EarlyReply(registry: seq<Descriptor>, v: Visit, lookup: Lookup<Completion>): Option<HttpReply> {
    if Rejection(registry, v).Some? then Rejection(registry, v)
    else if !Keyed(v) then None
    else
      match lookup
      case NoRecord => None
      case Conflicting => Some(ConflictRejected)
      case Recorded(body) => Some(ReplayedCompletion(body))
  }

  /** What may be looked up and served at all. */
  predicate Admissible(registry: seq<Descriptor>, v: Visit) {
    && !v.request.stream
    && TargetAllowed(registry, v.request.routing.simulatedFailureProvider)
    && HeadersValid(v)
  }

  /** A header that is not blank has a character that `strip` leaves. */
  ghost predicate HasText(s: string) {
    exists i :: 0 <= i < |s| && s[i] !in " \t\n\U{B}\U{C}\r\U{1C}\U{1D}\U{1E}\U{1F}\U{85}\U{A0}"
  }

  /** What is admissible: no streaming; a failure target, if any, whose first registered provider is simulated; and
      both idempotency headers with some text in them, or neither. */
  lemma AdmissibleMeans(registry: seq<Descriptor>, v: Visit)
    ensures var target := v.request.routing.simulatedFailureProvider;
            Admissible(registry, v) <==>
              && !v.request.stream
              && (target == None ||
                  exists i :: 0 <= i < |registry| && registry[i].name == target.value && registry[i].simulated &&
                              forall j :: 0 <= j < i ==> registry[j].name != target.value)
              && ((v.client == None && v.key == None) ||
                  (v.client.Some? && v.key.Some? && HasText(v.client.value) && HasText(v.key.value)))
  {
    if v.client.Some? {
      BlankMeans(v.client.value);
    }
    if v.key.Some? {
      BlankMeans(v.key.value);
    }
    var target := v.request.routing.simulatedFailureProvider;
    if target.Some? {
      FirstOfName(registry, target.value);
    }
  }

  lemma BlankMeans(s: string)
    ensures IsBlank(s) <==> !HasText(s)
  {
    var spaces := " \t\n\U{B}\U{C}\r\U{1C}\U{1D}\U{1E}\U{1F}\U{85}\U{A0}";
    forall i | 0 <= i < |s| ensures IsSpace(s[i]) <==> s[i] in spaces {
      SpaceMeans(s[i]);
    }
  }

  lemma SpaceMeans(c: char)
    ensures IsSpace(c) <==> c in " \t\n\U{B}\U{C}\r\U{1C}\U{1D}\U{1E}\U{1F}\U{85}\U{A0}"
  {
  }

  lemma {:induction false} FirstOfName(ps: seq<Descriptor>, name: string)
    ensures var k := IndexOfName(ps, name);
            k.Some? ==> forall j :: 0 <= j < k.value ==> ps[j].name != name
  {
    if ps != [] && ps[0].name != name {
      FirstOfName(ps[1..], name);
    }
  }

  /** When each early reply is given, whatever the order of the checks: the loop is reached exactly by admissible
      requests without a record; a stored body is returned exactly to an admissible request that has it on record;
      and each rejection is given exactly when its fault is the first one present. */
  lemma EarlyReplyMeans(registry: seq<Descriptor>, v: Visit, lookup: Lookup<Completion>, body: Completion)
    ensures var early, target := EarlyReply(registry, v, lookup), v.request.routing.simulatedFailureProvider;
            && (early.None? <==> Admissible(registry, v) && (v.client.Some? ==> lookup.NoRecord?))
            && (early == Some(ReplayedCompletion(body)) <==>
                  Admissible(registry, v) && v.client.Some? && lookup == Recorded(body))
            && (early == Some(ConflictRejected) <==>
                  Admissible(registry, v) && v.client.Some? && lookup.Conflicting?)
            && (early == Some(StreamingNotImplemented) <==> v.request.stream)
            && (early == Some(FailureTargetUnknown) <==>
                  !v.request.stream && target.Some? && forall p :: p in registry ==> p.name != target.value)
            && (early == Some(HeadersRejected) <==>
                  !v.request.stream && TargetAllowed(registry, target) && !HeadersValid(v))
            && (early == Some(FailureTargetNotSimulated) <==>
                  !v.request.stream && !TargetAllowed(registry, target) &&
                  exists p :: p in registry && target == Some(p.name))
  {
    var target := v.request.routing.simulatedFailureProvider;
    if target.Some? && IndexOfName(registry, target.value).Some? {
      assert registry[IndexOfName(registry, target.value).value] in registry;
    }
  }

  function ReplyOf(requestId: string, r: Request, o: Outcome): HttpReply {
    match o
    case UnknownModelRequested => ModelNotFound
    case NothingEligible => NotEligible
    case Exhausted(attempted) => Unavailable(attempted)
    case Answered(_, _, _, _) => Completed(BodyOf(requestId, r, o))
  }

  function Respond(
    registry: seq<Descriptor>, cacheEnabled: bool, v: Visit, lookup: Lookup<Completion>, ws: seq<World>): HttpReply
    requires |ws| >= MaxAttempts(registry, v.request)
  {
    match EarlyReply(registry, v, lookup)
    case Some(reply) => reply
    case None => ReplyOf(v.requestId, v.request, Serve(registry, cacheEnabled, v.request, ws))
  }

  /** The status code of a reply. */
  function Status(reply: HttpReply): nat {
    match reply
    case StreamingNotImplemented => 501
    case FailureTargetUnknown => 422
    case FailureTargetNotSimulated => 422
    case HeadersRejected => 400
    case ConflictRejected => 409
    case ReplayedCompletion(_) => 200
    case Completed(_) => 200
    case ModelNotFound => 404
    case NotEligible => 422
    case Unavailable(_) => 503
  }

  /** What a client sees of a request that reaches the loop: 200 exactly if some attempt answered, 404 exactly if its
      model is unknown, 422 exactly if nothing was eligible, and 503, with all that was attempted, if all failed. */
  lemma StatusMeans(
    registry: seq<Descriptor>, cacheEnabled: bool, v: Visit, lookup: Lookup<Completion>, ws: seq<World>)
    requires |ws| >= MaxAttempts(registry, v.request) && EarlyReply(registry, v, lookup).None?
    ensures var reply := Respond(registry, cacheEnabled, v, lookup, ws);
            var o := Serve(registry, cacheEnabled, v.request, ws);
            && (Status(reply) == 200 <==> o.Answered?)
            && (Status(reply) == 404 <==> o.UnknownModelRequested?)
            && (Status(reply) == 422 <==> o.NothingEligible?)
            && (Status(reply) == 503 <==> o.Exhausted?)
            && (o.Answered? <==> reply.Completed?)
            && (o.Exhausted? ==> reply == Unavailable(Tried(o)))
  {
    hide Serve;
    hide EarlyReply;
  }

  /** And of one that does not: 501 for streaming, 422 for a failure target, 400 for headers, 409 for a conflict, and
      200 for a replay. */
  lemma EarlyStatusMeans(registry: seq<Descriptor>, v: Visit, lookup: Lookup<Completion>)
    requires EarlyReply(registry, v, lookup).Some?
    ensures var status, r := Status(EarlyReply(registry, v, lookup).value), v.request;
            var target := TargetAllowed(registry, r.routing.simulatedFailureProvider);
            && (status == 501 <==> r.stream)
            && (status == 422 <==> !r.stream && !target)
            && (status == 400 <==> !r.stream && target && !HeadersValid(v))
            && (status == 409 <==> Admissible(registry, v) && lookup.Conflicting?)
            && (status == 200 <==> Admissible(registry, v) && lookup.Recorded?)
  {
  }

  // ---------------------------------------------------------------------------------------------
  // Writes to the backend
  // ---------------------------------------------------------------------------------------------

  datatype Write =
    | Fill(fill: CacheFill)                                               // main.py:378-379
    | Store(client: string, key: string, request: Request, body: Completion)  // main.py:421-427

  /** The result that a body was assembled from. */
  function ResultIn(body: Completion): ProviderResult {
    ProviderResult(body.text, body.promptTokens, body.completionTokens, body.finishReason, body.estimatedCost)
  }

  /** What a reply has written: a fresh answer of a provider to the cache, and every answer of the loop to the record
      of its client and key. */
  function WritesBehind(cacheEnabled: bool, v: Visit, reply: HttpReply): seq<Write> {
    if !reply.Completed? then []
    else
      (if UsesCache(cacheEnabled, v.request) && !reply.body.cacheHit
       then [Fill(CacheFill(reply.body.provider, ResultIn(reply.body)))]
       else [])
      + if v.client.Some? && v.key.Some?
        then [Store(v.client.value, v.key.value, v.request, reply.body)]
        else []
  }

  // ---------------------------------------------------------------------------------------------
  // Telemetry
  // ---------------------------------------------------------------------------------------------

  /** Measured times: of each provider call, and of the whole request. */
  datatype Times = Times(call: nat -> real, total: real)

  function StatusOf(cacheEnabled: bool, r: Request, body: Completion): Telemetry.CacheStatus {
    if cacheEnabled && !r.routing.bypassCache then (if body.cacheHit then Telemetry.Hit else Telemetry.Miss)
    else Telemetry.Bypass
  }

  function EventOf(body: Completion, status: Telemetry.CacheStatus, latency: real): Telemetry.InferenceEvent {
    Telemetry.InferenceEvent(body.requestId, body.provider, body.policy, status, latency, body.fallbackCount)
  }

  /** How long a call of a request is recorded to have taken: a simulated failure no time at all. */
  function LatencyOfCall(r: Request, provider: string, t: Times, i: nat): real {
    if r.routing.simulatedFailureProvider == Some(provider) then 0.0 else t.call(i)
  }

  function Timed(r: Request, calls: seq<ProviderCall>, t: Times): (records: seq<Telemetry.Record>)
    ensures |records| == |calls|
    ensures forall i :: 0 <= i < |calls| ==>
              && records[i].ProviderCall?
              && records[i].provider == calls[i].provider
              && records[i].success == calls[i].success
  {
    seq(|calls|, i requires 0 <= i < |calls| =>
      Telemetry.ProviderCall(calls[i].provider, calls[i].success, LatencyOfCall(r, calls[i].provider, t, i)))
  }

  /** The calls that a reply accounts for. */
  function CallsBehind(reply: HttpReply): seq<ProviderCall> {
    match reply
    case Completed(body) =>
      var last := if body.attemptedProviders == [] then 0 else |body.attemptedProviders| - 1;
      FailureRecords(body.attemptedProviders[..last])
      + if body.cacheHit then [] else [ProviderCall(body.provider, true, body.estimatedCost)]
    case Unavailable(attempted) => FailureRecords(attempted)
    case _ => []
  }

  function EventsBehind(cacheEnabled: bool, r: Request, reply: HttpReply, t: Times): seq<Telemetry.InferenceEvent> {
    match reply
    case ReplayedCompletion(body) => [EventOf(body, Telemetry.Replay, t.total)]
    case Completed(body) => [EventOf(body, StatusOf(cacheEnabled, r, body), t.total)]
    case _ => []
  }

  /** Everything a request records, in order. */
  function Emitted(cacheEnabled: bool, r: Request, reply: HttpReply, t: Times): seq<Telemetry.Record> {
    var events := EventsBehind(cacheEnabled, r, reply, t);
    Timed(r, CallsBehind(reply), t) + seq(|events|, i requires 0 <= i < |events| => Telemetry.Inference(events[i]))
  }

  /** What a request records, record by record. A fresh answer: a failure for every provider attempted before the last
      one, a success for the last one unless the cache answered, and one event that carries the reply's request id,
      provider, policy and fallbacks, with HIT exactly if the cache answered, MISS exactly if it was in use and did
      not, and BYPASS exactly if it was disabled or bypassed. A replay: one event that carries those of the stored
      reply. Without an answer: a failure for every attempt, or nothing. */
  lemma EmittedMeans(cacheEnabled: bool, r: Request, reply: HttpReply, t: Times)
    requires reply.Completed? ==> reply.body.attemptedProviders != []
    ensures var records := Emitted(cacheEnabled, r, reply, t);
            match reply
            case Completed(body) =>
              var n, attempted := |body.attemptedProviders| - 1, body.attemptedProviders;
              var status := if !cacheEnabled || r.routing.bypassCache then Telemetry.Bypass
                            else if body.cacheHit then Telemetry.Hit else Telemetry.Miss;
              && |records| == n + (if body.cacheHit then 1 else 2)
              && (forall i :: 0 <= i < n ==>
                    records[i] == Telemetry.ProviderCall(attempted[i], false, LatencyOfCall(r, attempted[i], t, i)))
              && (!body.cacheHit ==>
                    records[n] == Telemetry.ProviderCall(body.provider, true, LatencyOfCall(r, body.provider, t, n)))
              && records[|records| - 1] ==
                 Telemetry.Inference(Telemetry.InferenceEvent(
                   body.requestId, body.provider, body.policy, status, t.total, body.fallbackCount))
            case ReplayedCompletion(body) =>
              records == [Telemetry.Inference(Telemetry.InferenceEvent(
                            body.requestId, body.provider, body.policy, Telemetry.Replay, t.total, body.fallbackCount))]
            case Unavailable(attempted) =>
              && |records| == |attempted|
              && forall i :: 0 <= i < |attempted| ==>
                   records[i] == Telemetry.ProviderCall(attempted[i], false, LatencyOfCall(r, attempted[i], t, i))
            case _ => records == []
  {
  }

  /** What a request writes: at most a cache fill and then a record. It fills the cache exactly if it uses the cache and
      a provider has just answered, with what the reply reports; and stores the reply exactly if it got an answer of
      the loop and carries a client and a key. */
  lemma WritesMean(cacheEnabled: bool, v: Visit, reply: HttpReply)
    ensures var writes := WritesBehind(cacheEnabled, v, reply);
            var fills := reply.Completed? && cacheEnabled && !v.request.routing.bypassCache && !reply.body.cacheHit;
            var stores := reply.Completed? && v.client.Some? && v.key.Some?;
            && |writes| == (if fills then 1 else 0) + (if stores then 1 else 0)
            && (fills ==>
                  && writes[0].Fill? && writes[0].fill.provider == reply.body.provider
                  && writes[0].fill.result == ProviderResult(
                       reply.body.text, reply.body.promptTokens, reply.body.completionTokens,
                       reply.body.finishReason, reply.body.estimatedCost))
            && (stores ==>
                  writes[|writes| - 1] == Store(v.client.value, v.key.value, v.request, reply.body))
  {
  }

  lemma TimedOneMore(r: Request, calls: seq<ProviderCall>, t: Times, i: nat)
    requires i < |calls|
    ensures Timed(r, calls, t)[..i + 1]
         == Timed(r, calls, t)[..i]
            + [Telemetry.ProviderCall(calls[i].provider, calls[i].success,
                                      LatencyOfCall(r, calls[i].provider, t, i))]
  {
  }

  method RecordCalls(telemetry: Telemetry.Telemetry, r: Request, calls: seq<ProviderCall>, t: Times)
    requires telemetry.Valid()
    modifies telemetry
    ensures telemetry.Valid() && telemetry.log == old(telemetry.log) + Timed(r, calls, t)
  {
    hide Timed;
    hide LatencyOfCall;
    for i := 0 to |calls|
      invariant telemetry.Valid() && telemetry.log == old(telemetry.log) + Timed(r, calls, t)[..i]
    {
      telemetry.RecordProviderCall(calls[i].provider, calls[i].success, LatencyOfCall(r, calls[i].provider, t, i));
      TimedOneMore(r, calls, t, i);
    }
    assert Timed(r, calls, t)[..|calls|] == Timed(r, calls, t);
  }

  method CheckEarly(registry: seq<Descriptor>, v: Visit, lookup: Lookup<Completion>)
    returns (reply: Option<HttpReply>)
    ensures reply == EarlyReply(registry, v, lookup)
  {
    if v.request.stream {
      return Some(StreamingNotImplemented);
    }
    if v.request.routing.simulatedFailureProvider.Some? {
      var target := IndexOfName(registry, v.request.routing.simulatedFailureProvider.value);
      if target.None? {
        return Some(FailureTargetUnknown);
      }
      if !registry[target.value].simulated {
        return Some(FailureTargetNotSimulated);
      }
    }
    if v.client.None? != v.key.None? {
      return Some(HeadersRejected);
    }
    if v.client.Some? {
      if IsBlank(v.client.value) || IsBlank(v.key.value) {
        return Some(HeadersRejected);
      }
      match lookup {
        case NoRecord => return None;
        case Conflicting => return Some(ConflictRejected);
        case Recorded(body) => return Some(ReplayedCompletion(body));
      }
    }
    return None;
  }

  lemma CallsBehindOutcome(requestId: string, r: Request, o: Outcome)
    requires o.Answered? ==> o.attempted != []
    ensures CallsBehind(ReplyOf(requestId, r, o)) == CallRecords(o)
  {
  }

  lemma OneEventAtMost(cacheEnabled: bool, r: Request, reply: HttpReply, t: Times)
    ensures var events := EventsBehind(cacheEnabled, r, reply, t);
            && (events == [] || events == [events[0]])
            && Emitted(cacheEnabled, r, reply, t)
               == Timed(r, CallsBehind(reply), t) + if events == [] then [] else [Telemetry.Inference(events[0])]
  {
  }

  method RecordReply(
    telemetry: Telemetry.Telemetry, cacheEnabled: bool, r: Request, reply: HttpReply, calls: seq<ProviderCall>,
    t: Times)
    requires telemetry.Valid() && calls == CallsBehind(reply)
    modifies telemetry
    ensures telemetry.Valid() && telemetry.log == old(telemetry.log) + Emitted(cacheEnabled, r, reply, t)
  {
    hide CallsBehind;
    hide Timed;
    hide Emitted;
    hide EventsBehind;
    RecordCalls(telemetry, r, calls, t);
    var events := EventsBehind(cacheEnabled, r, reply, t);
    OneEventAtMost(cacheEnabled, r, reply, t);
    if events != [] {
      telemetry.RecordInference(events[0]);
    }
  }

  lemma EarlyRepliesDoNothing(cacheEnabled: bool, registry: seq<Descriptor>, v: Visit, lookup: Lookup<Completion>)
    requires EarlyReply(registry, v, lookup).Some?
    ensures CallsBehind(EarlyReply(registry, v, lookup).value) == []
    ensures WritesBehind(cacheEnabled, v, EarlyReply(registry, v, lookup).value) == []
  {
  }

  function Fills(fills: seq<CacheFill>): (writes: seq<Write>)
    ensures |writes| == |fills|
  {
    seq(|fills|, i requires 0 <= i < |fills| => Fill(fills[i]))
  }

  lemma WritesBehindOutcome(cacheEnabled: bool, v: Visit, o: Outcome)
    ensures WritesBehind(cacheEnabled, v, ReplyOf(v.requestId, v.request, o))
         == Fills(FillsOf(cacheEnabled, v.request, o)) +
            if o.Answered? && v.client.Some? && v.key.Some?
            then [Store(v.client.value, v.key.value, v.request, BodyOf(v.requestId, v.request, o))]
            else []
  {
  }

  /** The endpoint.  What the replay check and every attempt find is given from outside; what it writes to the
      backend is the result. */
  method ChatCompletion(
    registry: seq<Descriptor>, cacheEnabled: bool, v: Visit, lookup: Lookup<Completion>,
    ws: seq<World>, telemetry: Telemetry.Telemetry, t: Times)
    returns (reply: HttpReply, writes: seq<Write>)
    requires |ws| >= MaxAttempts(registry, v.request) && telemetry.Valid()
    modifies telemetry
    ensures reply == Respond(registry, cacheEnabled, v, lookup, ws)
    ensures writes == WritesBehind(cacheEnabled, v, reply)
    ensures telemetry.Valid() && telemetry.log == old(telemetry.log) + Emitted(cacheEnabled, v.request, reply, t)
  {
    hide Serve;
    hide Emitted;
    hide EarlyReply;
    hide CallRecords;
    hide WritesBehind;
    var early := CheckEarly(registry, v, lookup);
    var calls: seq<ProviderCall>;
    if early.Some? {
      reply, calls, writes := early.value, [], [];
      EarlyRepliesDoNothing(cacheEnabled, registry, v, lookup);
    } else {
      var outcome, fills;
      outcome, calls, fills := RunFallback(registry, cacheEnabled, v.request, ws);
      reply := ReplyOf(v.requestId, v.request, outcome);
      writes := Fills(fills);
      if reply.Completed? && v.client.Some? && v.key.Some? {
        writes := writes + [Store(v.client.value, v.key.value, v.request, reply.body)];
      }
      AnswersHaveAttempts(registry, cacheEnabled, v.request, ws);
      CallsBehindOutcome(v.requestId, v.request, outcome);
      WritesBehindOutcome(cacheEnabled, v, outcome);
    }
    RecordReply(telemetry, cacheEnabled, v.request, reply, calls, t);
  }

  lemma AnswersHaveAttempts(registry: seq<Descriptor>, cacheEnabled: bool, r: Request, ws: seq<World>)
    requires MaxAttempts(registry, r) <= |ws|
    ensures var o := Serve(registry, cacheEnabled, r, ws); o.Answered? ==> o.attempted != []
  {
    ServeExplained(registry, cacheEnabled, r, ws);
  }

  // ---------------------------------------------------------------------------------------------
  // The reported metadata
  // ---------------------------------------------------------------------------------------------

  /** On every fresh 200 the metadata tells the truth: the providers attempted before the last one all failed and
      are counted as fallbacks, the reported provider is the last one attempted and was eligible, and the failed
      providers together with the reported eligible ones are the initially eligible ones, without overlap. */
  lemma MetadataIsTruthful(
    registry: seq<Descriptor>, cacheEnabled: bool, v: Visit, lookup: Lookup<Completion>, ws: seq<World>)
    requires MaxAttempts(registry, v.request) <= |ws| && Respond(registry, cacheEnabled, v, lookup, ws).Completed?
    ensures var r, body := v.request, Respond(registry, cacheEnabled, v, lookup, ws).body;
            var n := body.fallbackCount;
            && 0 <= n < |ws| && |body.attemptedProviders| == n + 1
            && body.provider == body.attemptedProviders[n] && body.provider in body.eligibleProviders
            && (forall i :: 0 <= i < n ==> Failed(cacheEnabled, r, ws, body.attemptedProviders, i))
            && NameSet(body.attemptedProviders[..n]) !! NameSet(body.eligibleProviders)
            && NameSet(body.attemptedProviders[..n]) + NameSet(body.eligibleProviders)
                 == NameSet(Names(InitiallyEligible(registry, r)))
            && (Attempt(cacheEnabled, r, body.provider, ws[n]).Some? &&
                var (result, hit) := Attempt(cacheEnabled, r, body.provider, ws[n]).value;
                body.text == result.text && body.estimatedCost == result.estimatedCost && body.cacheHit == hit)
  {
    hide Serve;
    hide Attempt;
    AnswerReport(registry, cacheEnabled, v.request, ws);
  }

  /** The rest of the body: the reported usage is that of the result, and the reported maximum is the estimate for a
      registered provider of the reported name that satisfies every constraint. */
  lemma UsageIsTruthful(
    registry: seq<Descriptor>, cacheEnabled: bool, v: Visit, lookup: Lookup<Completion>, ws: seq<World>)
    returns (p: Descriptor)
    requires MaxAttempts(registry, v.request) <= |ws| && Respond(registry, cacheEnabled, v, lookup, ws).Completed?
    ensures var r, body := v.request, Respond(registry, cacheEnabled, v, lookup, ws).body;
            && p in registry && p.name == body.provider && Satisfies(p, r)
            && body.maximumCost == EstimateCost(p, r) && body.simulated == p.simulated
            && body.requestId == v.requestId && body.model == r.model
            && (body.policy == "direct" <==> r.model != "auto")
            && 0 <= body.fallbackCount < |ws|
            && var attempt := Attempt(cacheEnabled, r, body.provider, ws[body.fallbackCount]);
            && attempt.Some?
            && body.promptTokens == attempt.value.0.promptTokens
            && body.completionTokens == attempt.value.0.completionTokens
            && body.totalTokens == body.promptTokens + body.completionTokens
            && body.finishReason == attempt.value.0.finishReason
  {
    hide Serve;
    hide Attempt;
    hide Satisfies;
    hide EstimateCost;
    hide NameSet;
    AnswerReport(registry, cacheEnabled, v.request, ws);
    var o := Serve(registry, cacheEnabled, v.request, ws);
    p := o.decision.provider;
    DirectExactlyWhenNamed(registry, cacheEnabled, v.request, ws);
  }

  /** An auto answer reports the policy of its request, and, in registry order, the providers that were eligible once
      the failed ones were excluded. */
  lemma RoutingIsTruthful(
    registry: seq<Descriptor>, cacheEnabled: bool, v: Visit, lookup: Lookup<Completion>, ws: seq<World>)
    requires MaxAttempts(registry, v.request) <= |ws| && Respond(registry, cacheEnabled, v, lookup, ws).Completed?
    requires v.request.model == "auto"
    ensures var r, body := v.request, Respond(registry, cacheEnabled, v, lookup, ws).body;
            && body.policy == PolicyName(r.routing.policy)
            && 0 <= body.fallbackCount < |body.attemptedProviders|
            && body.eligibleProviders ==
               Names(Eligible(registry, r, NameSet(body.attemptedProviders[..body.fallbackCount])))
  {
    hide Serve;
    hide Eligible;
    hide PolicyName;
    hide NameSet;
    DirectExactlyWhenNamed(registry, cacheEnabled, v.request, ws);
    EligibleInOrder(registry, cacheEnabled, v.request, ws);
  }

  lemma EligibleInOrder(registry: seq<Descriptor>, cacheEnabled: bool, r: Request, ws: seq<World>)
    requires MaxAttempts(registry, r) <= |ws| && Serve(registry, cacheEnabled, r, ws).Answered? && r.model == "auto"
    ensures var o := Serve(registry, cacheEnabled, r, ws);
            o.attempted != [] &&
            o.decision.eligible == Names(Eligible(registry, r, NameSet(o.attempted[..|o.attempted| - 1])))
  {
    hide Select;
    hide Attempt;
    hide Serve;
    ServeExplained(registry, cacheEnabled, r, ws);
    var o := Serve(registry, cacheEnabled, r, ws);
    var last := |o.attempted| - 1;
    EligibleAreReported(registry, r, NameSet(o.attempted[..last]), ws[last].turn);
  }

  /** The names of the policies (control_plane/contracts.py:13-20). */
  lemma PolicyNames()
    ensures PolicyName(Adaptive) == "adaptive" && PolicyName(RoundRobin) == "round_robin"
    ensures PolicyName(LowestCost) == "lowest_cost" && PolicyName(LowestLatency) == "lowest_latency"
    ensures PolicyName(HighestQuality) == "highest_quality" && PolicyName(SingleProvider) == "single_provider"
  {
  }

  lemma DirectExactlyWhenNamed(registry: seq<Descriptor>, cacheEnabled: bool, r: Request, ws: seq<World>)
    requires MaxAttempts(registry, r) <= |ws| && Serve(registry, cacheEnabled, r, ws).Answered?
    ensures Serve(registry, cacheEnabled, r, ws).decision.direct <==> r.model != "auto"
  {
    ServeExplained(registry, cacheEnabled, r, ws);
  }
}
