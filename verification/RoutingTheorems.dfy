/** What selection promises on the fields of requests and providers (control_plane/routing.py:39-158). */
module RoutingTheorems {
  import opened Contracts
  import opened Routing

  // ---------------------------------------------------------------------------------------------
  // The cost estimate
  // ---------------------------------------------------------------------------------------------

  function ContentLength(messages: seq<Message>): nat {
    if messages == [] then 0 else |messages[0].content| + ContentLength(messages[1..])
  }

  /** All contents, and one blank between any two. */
  lemma {:induction false} JoinedLength(messages: seq<Message>)
    ensures |Joined(messages)| == ContentLength(messages) + if messages == [] then 0 else |messages| - 1
  {
    if |messages| > 1 {
      JoinedLength(messages[1..]);
    }
  }

  /** Four characters a token, rounded down, and never less than one token. */
  lemma PromptTokensMeans(messages: seq<Message>)
    ensures var characters := ContentLength(messages) + if messages == [] then 0 else |messages| - 1;
            var tokens := PromptTokens(messages);
            tokens >= 1 && characters < 4 * (tokens + 1) && (tokens > 1 ==> 4 * tokens <= characters)
  {
    JoinedLength(messages);
  }

  /** The estimate is the price of the prompt tokens and of all the tokens that may come: it is nothing without prices,
      and each price enters with the number of its own tokens, by the million. */
  lemma EstimateMeans(p: Descriptor, r: Request, more: real)
    ensures EstimateCost(p.(inputPrice := 0.0, outputPrice := 0.0), r) == 0.0
    ensures EstimateCost(p.(inputPrice := p.inputPrice + more), r)
         == EstimateCost(p, r) + PromptTokens(r.messages) as real * more / 1000000.0
    ensures EstimateCost(p.(outputPrice := p.outputPrice + more), r)
         == EstimateCost(p, r) + r.maxTokens as real * more / 1000000.0
  {
    var input, output := PromptTokens(r.messages) as real, r.maxTokens as real;
    assert input * (p.inputPrice + more) == input * p.inputPrice + input * more;
    assert output * (p.outputPrice + more) == output * p.outputPrice + output * more;
  }

  // ---------------------------------------------------------------------------------------------
  // Constraints
  // ---------------------------------------------------------------------------------------------

  /** Eligible are exactly the registered providers that are not excluded, in the allowed list if there is one, not in
      the request's own exclusions, trusted if the request requires it, and within its limits of latency, cost and
      quality. */
  lemma EligibleExactlyWhen(registry: seq<Descriptor>, r: Request, excluded: set<string>, p: Descriptor)
    ensures p in Eligible(registry, r, excluded) <==>
              && p in registry && p.name !in excluded
              && (r.routing.allowedProviders == None || p.name in r.routing.allowedProviders.value)
              && p.name !in r.routing.excludedProviders
              && (r.routing.requireTrusted ==> p.trusted)
              && (r.routing.maxLatencyMs == None || p.nominalLatencyMs <= r.routing.maxLatencyMs.value)
              && (r.routing.maxEstimatedCost == None || EstimateCost(p, r) <= r.routing.maxEstimatedCost.value)
              && (r.routing.minQuality == None || r.routing.minQuality.value <= p.quality)
  {
    hide EstimateCost;
  }

  /** Whatever is selected keeps every constraint of the request. */
  lemma SelectedKeepsConstraints(registry: seq<Descriptor>, r: Request, excluded: set<string>, turn: nat)
    requires Select(registry, r, excluded, turn).Ok?
    ensures var p := Select(registry, r, excluded, turn).value.provider;
            && p in registry && p.name !in excluded
            && (r.routing.allowedProviders == None || p.name in r.routing.allowedProviders.value)
            && p.name !in r.routing.excludedProviders
            && (r.routing.requireTrusted ==> p.trusted)
            && (r.routing.maxLatencyMs == None || p.nominalLatencyMs <= r.routing.maxLatencyMs.value)
            && (r.routing.maxEstimatedCost == None || EstimateCost(p, r) <= r.routing.maxEstimatedCost.value)
            && (r.routing.minQuality == None || r.routing.minQuality.value <= p.quality)
  {
    hide Select;
    hide Satisfies;
    hide EstimateCost;
    SelectedIsEligible(registry, r, excluded, turn);
    EligibleExactlyWhen(registry, r, excluded, Select(registry, r, excluded, turn).value.provider);
  }

  lemma SelectedIsEligible(registry: seq<Descriptor>, r: Request, excluded: set<string>, turn: nat)
    requires Select(registry, r, excluded, turn).Ok?
    ensures Select(registry, r, excluded, turn).value.provider in Eligible(registry, r, excluded)
  {
    hide Select;
    if r.model == "auto" {
      AutoSucceeds(registry, r, excluded, turn);
    } else {
      ModelSucceeds(registry, r, excluded, turn);
    }
  }

  /** And every provider that keeps them all is reported as eligible, in registry order. */
  lemma EligibleAreReported(registry: seq<Descriptor>, r: Request, excluded: set<string>, turn: nat)
    requires r.model == "auto" && Select(registry, r, excluded, turn).Ok?
    ensures Select(registry, r, excluded, turn).value.eligible == Names(Eligible(registry, r, excluded))
  {
    hide Satisfies;
    hide EstimateCost;
    OwnExclusionsAreRedundant(registry, r, excluded);
  }

  // ---------------------------------------------------------------------------------------------
  // When selection succeeds
  // ---------------------------------------------------------------------------------------------

  /** The provider that a request names, by its model or as the one it prefers; auto requests under other policies
      name none. */
  ghost predicate NamedBy(registry: seq<Descriptor>, r: Request, p: Descriptor) {
    if r.model != "auto" then Resolve(registry, r.model) == Some(p)
    else r.routing.policy.SingleProvider? && r.routing.preferredProvider == Some(p.name)
  }

  predicate IsNamed(r: Request) {
    r.model != "auto" || r.routing.policy.SingleProvider?
  }

  /** Selection succeeds exactly when a provider is eligible, and, if the request names one, that one; it then takes
      the named one. The model is unknown exactly when an explicit one is served by nobody. */
  lemma SelectionSucceedsExactlyWhen(registry: seq<Descriptor>, r: Request, excluded: set<string>, turn: nat)
    ensures var selected := Select(registry, r, excluded, turn);
            && (selected == Err(UnknownModel) <==>
                  r.model != "auto" && forall p :: p in registry ==> r.model !in p.models)
            && (selected.Ok? <==>
                  exists p :: p in Eligible(registry, r, excluded) && (IsNamed(r) ==> NamedBy(registry, r, p)))
            && (selected.Ok? && IsNamed(r) ==> NamedBy(registry, r, selected.value.provider))
            && (selected.Ok? ==> (selected.value.direct <==> r.model != "auto"))
  {
    hide Satisfies;
    hide EstimateCost;
    OwnExclusionsAreRedundant(registry, r, excluded);
    if r.model == "auto" {
      AutoSucceeds(registry, r, excluded, turn);
    } else {
      ModelSucceeds(registry, r, excluded, turn);
    }
  }

  lemma ModelSucceeds(registry: seq<Descriptor>, r: Request, excluded: set<string>, turn: nat)
    requires r.model != "auto"
    ensures var selected, resolved := Select(registry, r, excluded, turn), Resolve(registry, r.model);
            && (selected == Err(UnknownModel) <==> resolved.None?)
            && (resolved.Some? ==> r.model in resolved.value.models && resolved.value in registry)
            && (selected.Ok? <==> resolved.Some? && resolved.value in Eligible(registry, r, excluded))
            && (selected.Ok? ==> selected.value.provider == resolved.value && selected.value.direct)
  {
    hide EstimateCost;
  }

  lemma AutoSucceeds(registry: seq<Descriptor>, r: Request, excluded: set<string>, turn: nat)
    requires r.model == "auto"
    ensures var selected, es := Select(registry, r, excluded, turn), Eligible(registry, r, excluded);
            && selected != Err(UnknownModel)
            && (selected.Ok? ==> selected.value.provider in es && !selected.value.direct)
            && (selected.Ok? && IsNamed(r) ==> r.routing.preferredProvider == Some(selected.value.provider.name))
            && (es != [] && !IsNamed(r) ==> selected.Ok?)
            && (IsNamed(r) && (exists p :: p in es && r.routing.preferredProvider == Some(p.name)) ==> selected.Ok?)
  {
    hide Satisfies;
    hide EstimateCost;
    OwnExclusionsAreRedundant(registry, r, excluded);
    var es := Eligible(registry, r, excluded);
    if es != [] {
      ChooseExactlyWhen(es, r, turn);
    }
  }

  lemma ChooseExactlyWhen(es: seq<Descriptor>, r: Request, turn: nat)
    requires es != []
    ensures var k := Choose(es, r, turn);
            && (!r.routing.policy.SingleProvider? ==> k.Some?)
            && (r.routing.policy.SingleProvider? ==>
                  (k.Some? <==> exists p :: p in es && r.routing.preferredProvider == Some(p.name)) &&
                  (k.Some? ==> r.routing.preferredProvider == Some(es[k.value].name)))
  {
    if r.routing.policy.SingleProvider? && Choose(es, r, turn).Some? {
      assert es[Choose(es, r, turn).value] in es;
    }
  }

  /** A round-robin turn is taken exactly by an auto request under that policy that finds a provider. */
  lemma TurnTakenExactlyWhen(registry: seq<Descriptor>, r: Request, excluded: set<string>)
    ensures TakesTurn(registry, r, excluded) <==>
              r.model == "auto" && r.routing.policy.RoundRobin? && Eligible(registry, r, excluded) != []
  {
    OwnExclusionsAreRedundant(registry, r, excluded);
  }
}
