/** Provider selection (control_plane/routing.py): hard constraints first, then a policy picks one of the eligible
    providers.  The policies are expressions; the only state is the round-robin index. */
module Routing {
  import opened Contracts

  // ---------------------------------------------------------------------------------------------
  // Python's min and max over a list of keys: the first extreme element
  // ---------------------------------------------------------------------------------------------

  function FirstMin(keys: seq<real>): (k: nat)
    requires keys != []
    ensures k < |keys|
    ensures forall i :: 0 <= i < |keys| ==> keys[k] <= keys[i]
    ensures forall i :: 0 <= i < k ==> keys[k] < keys[i]
  {
    if |keys| == 1 then 0
    else
      var k := 1 + FirstMin(keys[1..]);
      if keys[0] <= keys[k] then 0 else k
  }

  function FirstMax(keys: seq<real>): (k: nat)
    requires keys != []
    ensures k < |keys|
    ensures forall i :: 0 <= i < |keys| ==> keys[i] <= keys[k]
    ensures forall i :: 0 <= i < k ==> keys[i] < keys[k]
  {
    if |keys| == 1 then 0
    else
      var k := 1 + FirstMax(keys[1..]);
      if keys[k] <= keys[0] then 0 else k
  }

  // ---------------------------------------------------------------------------------------------
  // Constraints
  // ---------------------------------------------------------------------------------------------

  function EstimateCost(p: Descriptor, r: Request): real {
    (PromptTokens(r.messages) as real * p.inputPrice + r.maxTokens as real * p.outputPrice) / 1000000.0
  }

  predicate Satisfies(p: Descriptor, r: Request) {
    var o := r.routing;
    !( || (o.allowedProviders.Some? && p.name !in o.allowedProviders.value)
       || p.name in o.excludedProviders
       || (o.requireTrusted && !p.trusted)
       || (o.maxLatencyMs.Some? && p.nominalLatencyMs > o.maxLatencyMs.value)
       || (o.maxEstimatedCost.Some? && EstimateCost(p, r) > o.maxEstimatedCost.value)
       || (o.minQuality.Some? && p.quality < o.minQuality.value))
  }

  /** The registry only rejects repeated model names; the gateway keys its runtimes by provider name. */
  ghost predicate UniqueNames(registry: seq<Descriptor>) {
    forall i, j :: 0 <= i < j < |registry| ==> registry[i].name != registry[j].name
  }

  function Names(ps: seq<Descriptor>): (names: seq<string>)
    ensures |names| == |ps| && forall i :: 0 <= i < |ps| ==> names[i] == ps[i].name
  {
    seq(|ps|, i requires 0 <= i < |ps| => ps[i].name)
  }

  /** The providers that are not excluded and satisfy every constraint, in registry order. */
  function Eligible(registry: seq<Descriptor>, r: Request, excluded: set<string>): (es: seq<Descriptor>)
    ensures |es| <= |registry|
    ensures forall p :: p in es <==> p in registry && p.name !in excluded && Satisfies(p, r)
  {
    if registry == [] then []
    else
      var p := registry[0];
      (if p.name !in excluded && Satisfies(p, r) then [p] else []) + Eligible(registry[1..], r, excluded)
  }

  /** The only provider that serves a model; the registry guarantees there is at most one. */
  function Resolve(registry: seq<Descriptor>, model: string): (p: Option<Descriptor>)
    ensures p.Some? ==> p.value in registry && model in p.value.models
    ensures p.None? ==> forall q :: q in registry ==> model !in q.models
  {
    if registry == [] then None
    else if model in registry[0].models then Some(registry[0])
    else Resolve(registry[1..], model)
  }

  // ---------------------------------------------------------------------------------------------
  // The adaptive score
  // ---------------------------------------------------------------------------------------------

  /** What the score looks at. */
  datatype Metrics = Metrics(cost: real, latency: real, utilization: real, quality: real)

  function MetricsOf(p: Descriptor, r: Request): Metrics {
    Metrics(EstimateCost(p, r), p.nominalLatencyMs as real, p.utilization, p.quality)
  }

  function AllMetrics(ps: seq<Descriptor>, r: Request): (ms: seq<Metrics>)
    ensures |ms| == |ps| && forall i :: 0 <= i < |ps| ==> ms[i] == MetricsOf(ps[i], r)
  {
    seq(|ps|, i requires 0 <= i < |ps| => MetricsOf(ps[i], r))
  }

  function Costs(ms: seq<Metrics>): (cs: seq<real>)
    ensures |cs| == |ms| && forall i :: 0 <= i < |ms| ==> cs[i] == ms[i].cost
  {
    seq(|ms|, i requires 0 <= i < |ms| => ms[i].cost)
  }

  function Latencies(ms: seq<Metrics>): (ls: seq<real>)
    ensures |ls| == |ms| && forall i :: 0 <= i < |ms| ==> ls[i] == ms[i].latency
  {
    seq(|ms|, i requires 0 <= i < |ms| => ms[i].latency)
  }

  function OrOne(m: real): (r: real)
    ensures r != 0.0
    ensures m >= 0.0 ==> r > 0.0
  {
    if m == 0.0 then 1.0 else m
  }

  /** `max(...) or 1`. */
  function Scale(xs: seq<real>): (m: real)
    requires xs != []
    ensures m != 0.0
    ensures (forall i :: 0 <= i < |xs| ==> xs[i] >= 0.0) ==> m > 0.0
  {
    OrOne(xs[FirstMax(xs)])
  }

  /** The score of a candidate whose cost and latency are given relative to the largest ones. */
  function Score(w: Weights, relativeCost: real, relativeLatency: real, utilization: real, quality: real): real {
    w.cost * relativeCost + w.latency * relativeLatency + w.utilization * utilization + w.quality * (1.0 - quality)
  }

  function Divided(xs: seq<real>, m: real): (rs: seq<real>)
    requires m != 0.0
    ensures |rs| == |xs| && forall i :: 0 <= i < |xs| ==> rs[i] == xs[i] / m
  {
    seq(|xs|, i requires 0 <= i < |xs| => xs[i] / m)
  }

  function Relative(xs: seq<real>): (rs: seq<real>)
    requires xs != []
    ensures |rs| == |xs|
  {
    Divided(xs, Scale(xs))
  }

  function WeightedScores(w: Weights, costs: seq<real>, latencies: seq<real>, ms: seq<Metrics>): (ss: seq<real>)
    requires |costs| == |latencies| == |ms|
    ensures |ss| == |ms|
    ensures forall i :: 0 <= i < |ms| ==>
              ss[i] == Score(w, costs[i], latencies[i], ms[i].utilization, ms[i].quality)
  {
    seq(|ms|, i requires 0 <= i < |ms| => Score(w, costs[i], latencies[i], ms[i].utilization, ms[i].quality))
  }

  function Scores(w: Weights, ms: seq<Metrics>): (ss: seq<real>)
    requires ms != []
    ensures |ss| == |ms|
  {
    WeightedScores(w, Relative(Costs(ms)), Relative(Latencies(ms)), ms)
  }

  // ---------------------------------------------------------------------------------------------
  // Selection
  // ---------------------------------------------------------------------------------------------

  datatype SelectError = UnknownModel | NoEligibleProvider

  datatype Decision = Decision(provider: Descriptor, direct: bool, eligible: seq<string>, estimatedCost: real)

  function EstimatedCosts(ps: seq<Descriptor>, r: Request): (ks: seq<real>)
    ensures |ks| == |ps| && forall i :: 0 <= i < |ps| ==> ks[i] == EstimateCost(ps[i], r)
  {
    seq(|ps|, i requires 0 <= i < |ps| => EstimateCost(ps[i], r))
  }

  function NominalLatencies(ps: seq<Descriptor>): (ks: seq<real>)
    ensures |ks| == |ps| && forall i :: 0 <= i < |ps| ==> ks[i] == ps[i].nominalLatencyMs as real
  {
    seq(|ps|, i requires 0 <= i < |ps| => ps[i].nominalLatencyMs as real)
  }

  function Qualities(ps: seq<Descriptor>): (ks: seq<real>)
    ensures |ks| == |ps| && forall i :: 0 <= i < |ps| ==> ks[i] == ps[i].quality
  {
    seq(|ps|, i requires 0 <= i < |ps| => ps[i].quality)
  }

  /** The position of the first provider of that name. */
  function IndexOfName(ps: seq<Descriptor>, name: string): (k: Option<nat>)
    ensures k.Some? ==> k.value < |ps| && ps[k.value].name == name
    ensures k.None? ==> forall i :: 0 <= i < |ps| ==> ps[i].name != name
  {
    if ps == [] then None
    else if ps[0].name == name then Some(0)
    else
      match IndexOfName(ps[1..], name)
      case Some(k) => Some(k + 1)
      case None => None
  }

  /** Which of the eligible providers the policy takes; only `SingleProvider` can take none. */
  function Choose(es: seq<Descriptor>, r: Request, roundRobinIndex: nat): (k: Option<nat>)
    requires es != []
    ensures k.Some? ==> k.value < |es|
    ensures !r.routing.policy.SingleProvider? ==> k.Some?
  {
    match r.routing.policy
    case SingleProvider =>
      (match r.routing.preferredProvider
       case Some(name) => IndexOfName(es, name)
       case None => None)
    case RoundRobin => Some(roundRobinIndex % |es|)
    case LowestCost => Some(FirstMin(EstimatedCosts(es, r)))
    case LowestLatency => Some(FirstMin(NominalLatencies(es)))
    case HighestQuality => Some(FirstMax(Qualities(es)))
    case Adaptive => Some(FirstMin(Scores(r.routing.weights, AllMetrics(es, r))))
  }

  function Select(registry: seq<Descriptor>, r: Request, excluded: set<string>, roundRobinIndex: nat)
    : Result<Decision, SelectError>
  {
    var all := excluded + (set name | name in r.routing.excludedProviders);
    if r.model != "auto" then
      match Resolve(registry, r.model)
      case None => Err(UnknownModel)
      case Some(p) =>
        if p.name in all || !Satisfies(p, r) then Err(NoEligibleProvider)
        else Ok(Decision(p, true, [p.name], EstimateCost(p, r)))
    else
      var es := Eligible(registry, r, all);
      if es == [] then Err(NoEligibleProvider)
      else
        match Choose(es, r, roundRobinIndex)
        case None => Err(NoEligibleProvider)
        case Some(k) => Ok(Decision(es[k], false, Names(es), EstimateCost(es[k], r)))
  }

  /** Whether this selection consumes a round-robin turn. */
  predicate TakesTurn(registry: seq<Descriptor>, r: Request, excluded: set<string>) {
    r.model == "auto" && r.routing.policy.RoundRobin? && Select(registry, r, excluded, 0).Ok?
  }

  class RoutingEngine {
    const registry: seq<Descriptor>
    var roundRobinIndex: nat

    constructor (registry: seq<Descriptor>)
      ensures this.registry == registry && roundRobinIndex == 0
    {
      this.registry := registry;
      roundRobinIndex := 0;
    }

    method SelectProvider(r: Request, excluded: set<string>) returns (decision: Result<Decision, SelectError>)
      modifies this`roundRobinIndex
      ensures decision == Select(registry, r, excluded, old(roundRobinIndex))
      ensures roundRobinIndex == old(roundRobinIndex) + if TakesTurn(registry, r, excluded) then 1 else 0
    {
      hide EstimateCost;
      hide Satisfies;
      hide Scores;
      hide FirstMin;
      hide FirstMax;
      var all := excluded + (set name | name in r.routing.excludedProviders);
      if r.model != "auto" {
        var resolved := Resolve(registry, r.model);
        if resolved.None? {
          return Err(UnknownModel);
        }
        var p := resolved.value;
        if p.name in all {
          return Err(NoEligibleProvider);
        }
        if !Satisfies(p, r) {
          return Err(NoEligibleProvider);
        }
        return Ok(Decision(p, true, [p.name], EstimateCost(p, r)));
      }
      var es := Eligible(registry, r, all);
      if es == [] {
        return Err(NoEligibleProvider);
      }
      var selected: Descriptor;
      match r.routing.policy {
        case SingleProvider =>
          if r.routing.preferredProvider.None? {
            return Err(NoEligibleProvider);
          }
          var k := IndexOfName(es, r.routing.preferredProvider.value);
          if k.None? {
            return Err(NoEligibleProvider);
          }
          selected := es[k.value];
        case RoundRobin =>
          selected := es[roundRobinIndex % |es|];
          roundRobinIndex := roundRobinIndex + 1;
        case LowestCost =>
          selected := es[FirstMin(EstimatedCosts(es, r))];
        case LowestLatency =>
          selected := es[FirstMin(NominalLatencies(es))];
        case HighestQuality =>
          selected := es[FirstMax(Qualities(es))];
        case Adaptive =>
          selected := es[FirstMin(Scores(r.routing.weights, AllMetrics(es, r)))];
      }
      return Ok(Decision(selected, false, Names(es), EstimateCost(selected, r)));
    }
  }

  /** Constraints are hard: whatever is selected is registered, not excluded, and satisfies every one of them, and
      so does every provider reported as eligible, none of which is left out. */
  lemma {:induction false} SelectionRespectsConstraints(
    registry: seq<Descriptor>, r: Request, excluded: set<string>, turn: nat)
    requires Select(registry, r, excluded, turn).Ok?
    ensures var d := Select(registry, r, excluded, turn).value;
            && d.provider in registry && d.provider.name !in excluded && Satisfies(d.provider, r)
            && d.provider.name in d.eligible
            && d.estimatedCost == EstimateCost(d.provider, r)
            && (r.routing.maxEstimatedCost.Some? ==> d.estimatedCost <= r.routing.maxEstimatedCost.value)
    ensures r.model == "auto" ==>
              forall p :: p in registry && p.name !in excluded && Satisfies(p, r)
                      ==> p.name in Select(registry, r, excluded, turn).value.eligible
  {
    var all := excluded + (set name | name in r.routing.excludedProviders);
    var d := Select(registry, r, excluded, turn).value;
    if r.model == "auto" {
      var es := Eligible(registry, r, all);
      var k := Choose(es, r, turn).value;
      assert es[k] in es && Names(es)[k] == es[k].name;
      forall p | p in registry && p.name !in excluded && Satisfies(p, r)
        ensures p.name in d.eligible
      {
        assert p in es;
        var i :| 0 <= i < |es| && es[i] == p;
        assert Names(es)[i] == p.name;
      }
    }
  }

  /** The request's own exclusions are a constraint already: excluding them again changes nothing. */
  lemma {:induction false} OwnExclusionsAreRedundant(registry: seq<Descriptor>, r: Request, excluded: set<string>)
    ensures Eligible(registry, r, excluded + (set name | name in r.routing.excludedProviders))
         == Eligible(registry, r, excluded)
  {
    if registry != [] {
      OwnExclusionsAreRedundant(registry[1..], r, excluded);
    }
  }
}
