/** The bounded fallback loop of `chat_completion` (control_plane/main.py:328-389): route, try, exclude, route again.

    What happens between two iterations is up to the rest of the gateway: other requests move the round-robin
    index, fill the cache and use up admission.  So each attempt comes with its own `World`, and every lemma holds
    for all of them: for any mix of simulated failures, cache hits, rejections and provider failures. */
module Fallback {
  import opened Contracts
  import opened Routing

  /** How `runtime.invoke` ends; every rejection and failure is a `ProviderCallError` (reliability.py:151-179). */
  datatype CallOutcome = Success(result: ProviderResult) | Failure

  /** What one attempt finds: the round-robin index, what the cache has, and how the provider's runtime answers. */
  datatype World = World(turn: nat, cached: string -> Option<ProviderResult>, answer: string -> CallOutcome)

  datatype Outcome =
    | Answered(decision: Decision, result: ProviderResult, cacheHit: bool, attempted: seq<string>)
    | Exhausted(attempted: seq<string>)  // 503
    | NothingEligible                    // 422
    | UnknownModelRequested              // 404

  /** One write to the response cache: what a provider has just produced for the request. */
  datatype CacheFill = CacheFill(provider: string, result: ProviderResult)

  /** One `record_provider_call`. */
  datatype ProviderCall = ProviderCall(provider: string, success: bool, estimatedCost: real)

  function NameSet(names: seq<string>): set<string> {
    set name | name in names
  }

  function MaxAttempts(registry: seq<Descriptor>, r: Request): nat {
    if r.model == "auto" then |registry| else 1
  }

  /** Whether the request may read and fill the cache. */
  predicate UsesCache(cacheEnabled: bool, r: Request) {
    cacheEnabled && !r.routing.bypassCache
  }

  /** The result of trying one provider, and whether it came from the cache. */
  function Attempt(cacheEnabled: bool, r: Request, name: string, w: World): Option<(ProviderResult, bool)> {
    if r.routing.simulatedFailureProvider == Some(name) then None
    else if UsesCache(cacheEnabled, r) && w.cached(name).Some? then Some((w.cached(name).value, true))
    else
      match w.answer(name)
      case Success(result) => Some((result, false))
      case Failure => None
  }

  /** The rest of the loop after these providers were attempted and failed. */
  function Continue(
    registry: seq<Descriptor>, cacheEnabled: bool, r: Request, ws: seq<World>, attempted: seq<string>): Outcome
    requires |ws| >= MaxAttempts(registry, r)
    decreases MaxAttempts(registry, r) - |attempted|
  {
    if |attempted| >= MaxAttempts(registry, r) then Exhausted(attempted)
    else
      var w := ws[|attempted|];
      match Select(registry, r, NameSet(attempted), w.turn)
      case Err(UnknownModel) => UnknownModelRequested
      case Err(NoEligibleProvider) => if attempted == [] then NothingEligible else Exhausted(attempted)
      case Ok(d) =>
        var tried := attempted + [d.provider.name];
        match Attempt(cacheEnabled, r, d.provider.name, w)
        case Some(answer) => Answered(d, answer.0, answer.1, tried)
        case None => Continue(registry, cacheEnabled, r, ws, tried)
  }

  function Serve(registry: seq<Descriptor>, cacheEnabled: bool, r: Request, ws: seq<World>): Outcome
    requires |ws| >= MaxAttempts(registry, r)
  {
    Continue(registry, cacheEnabled, r, ws, [])
  }

  function Tried(o: Outcome): seq<string> {
    match o
    case Answered(_, _, _, attempted) => attempted
    case Exhausted(attempted) => attempted
    case _ => []
  }

  function FailureRecords(names: seq<string>): (calls: seq<ProviderCall>)
    ensures |calls| == |names|
    ensures forall i :: 0 <= i < |names| ==> calls[i] == ProviderCall(names[i], false, 0.0)
  {
    seq(|names|, i requires 0 <= i < |names| => ProviderCall(names[i], false, 0.0))
  }

  /** What an outcome has left in the telemetry: a failure for every provider that failed, and a success for the
      last one unless the cache answered for it. */
  function CallRecords(o: Outcome): seq<ProviderCall> {
    match o
    case Answered(d, result, hit, attempted) =>
      FailureRecords(attempted[..if attempted == [] then 0 else |attempted| - 1])
      + if hit then [] else [ProviderCall(d.provider.name, true, result.estimatedCost)]
    case Exhausted(attempted) => FailureRecords(attempted)
    case _ => []
  }

  /** What an outcome has written to the cache: the answer, if a call has just produced it. */
  function FillsOf(cacheEnabled: bool, r: Request, o: Outcome): seq<CacheFill> {
    if o.Answered? && !o.cacheHit && UsesCache(cacheEnabled, r)
    then [CacheFill(o.decision.provider.name, o.result)]
    else []
  }

  /** One iteration after the routing decision (lines 351-380): what to break with, or nothing to go on. */
  method TryProvider(cacheEnabled: bool, r: Request, name: string, w: World)
    returns (result: Option<ProviderResult>, cacheHit: bool, calls: seq<ProviderCall>, fills: seq<CacheFill>)
    ensures Attempt(cacheEnabled, r, name, w)
         == if result.Some? then Some((result.value, cacheHit)) else None
    ensures calls == if result.None? then [ProviderCall(name, false, 0.0)]
                     else if cacheHit then [] else [ProviderCall(name, true, result.value.estimatedCost)]
    ensures fills == if result.Some? && !cacheHit && UsesCache(cacheEnabled, r) then [CacheFill(name, result.value)]
                     else []
    ensures result.None? ==> !cacheHit
  {
    if r.routing.simulatedFailureProvider == Some(name) {
      return None, false, [ProviderCall(name, false, 0.0)], [];
    }
    if UsesCache(cacheEnabled, r) {
      result := w.cached(name);
      if result.Some? {
        return result, true, [], [];
      }
    }
    var answer := w.answer(name);
    match answer {
      case Failure => return None, false, [ProviderCall(name, false, 0.0)], [];
      case Success(value) =>
        calls := [ProviderCall(name, true, value.estimatedCost)];
        fills := [];
        if UsesCache(cacheEnabled, r) {
          fills := [CacheFill(name, value)];
        }
        return Some(value), false, calls, fills;
    }
  }

  /** The loop as the gateway runs it. */
  method RunFallback(registry: seq<Descriptor>, cacheEnabled: bool, r: Request, ws: seq<World>)
    returns (outcome: Outcome, calls: seq<ProviderCall>, fills: seq<CacheFill>)
    requires |ws| >= MaxAttempts(registry, r)
    ensures outcome == Serve(registry, cacheEnabled, r, ws)
    ensures calls == CallRecords(outcome) && fills == FillsOf(cacheEnabled, r, outcome)
  {
    hide Select;
    var excluded: set<string> := {};
    var attempted: seq<string> := [];
    var decision: Option<Decision> := None;
    var result: Option<ProviderResult> := None;
    var cacheHit := false;
    calls, fills := [], [];
    for i := 0 to MaxAttempts(registry, r)
      invariant |attempted| == i && excluded == NameSet(attempted)
      invariant result.None? && !cacheHit && calls == FailureRecords(attempted) && fills == []
      invariant decision.None? <==> attempted == []
      invariant Serve(registry, cacheEnabled, r, ws) == Continue(registry, cacheEnabled, r, ws, attempted)
    {
      var selected := Select(registry, r, excluded, ws[i].turn);
      if selected.Err? {
        if selected.error == UnknownModel {
          return UnknownModelRequested, [], [];
        }
        if attempted != [] {
          break;
        }
        return NothingEligible, [], [];
      }
      decision := Some(selected.value);
      var name := selected.value.provider.name;
      var more: seq<ProviderCall>;
      result, cacheHit, more, fills := TryProvider(cacheEnabled, r, name, ws[i]);
      ghost var before := attempted;
      attempted := attempted + [name];
      calls := calls + more;
      if result.Some? {
        assert attempted[..|attempted| - 1] == before;
        break;
      }
      excluded := excluded + {name};
    }
    if decision.None? || result.None? {
      return Exhausted(attempted), calls, fills;
    }
    return Answered(decision.value, result.value, cacheHit, attempted), calls, fills;
  }
}
