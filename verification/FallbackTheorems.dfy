/** What the fallback loop guarantees, for every registry, request and sequence of worlds. */
module FallbackTheorems {
  import opened Contracts
  import opened Routing
  import opened Preference
  import opened RoutingTheorems
  import opened Fallback

  // ---------------------------------------------------------------------------------------------
  // One attempt
  // ---------------------------------------------------------------------------------------------

  /** When an attempt gives what: a simulated failure fails it whatever else there is; otherwise the cache answers
      exactly if it is enabled, not bypassed and has a result, and else the provider does. */
  lemma AttemptMeans(cacheEnabled: bool, r: Request, name: string, w: World, result: ProviderResult)
    ensures var simulated := r.routing.simulatedFailureProvider == Some(name);
            var attempt := Attempt(cacheEnabled, r, name, w);
            var asksCache := cacheEnabled && !r.routing.bypassCache;
            && (attempt == Some((result, true)) <==> !simulated && asksCache && w.cached(name) == Some(result))
            && (attempt == Some((result, false)) <==>
                  !simulated && !(asksCache && w.cached(name).Some?) && w.answer(name) == Success(result))
            && (attempt.None? <==>
                  simulated || (!(asksCache && w.cached(name).Some?) && w.answer(name).Failure?))
  {
  }

  /** And what the loop writes and records: a fill exactly if the cache is in use and a provider has just answered, with
      that answer; a failure for each failed attempt in order, and a success exactly for a provider's answer. */
  lemma OutcomeLeaves(cacheEnabled: bool, r: Request, o: Outcome)
    requires o.Answered? ==> o.attempted != []
    ensures var n := if o.Answered? then |o.attempted| - 1 else |Tried(o)|;
            var produced := o.Answered? && !o.cacheHit;
            && (FillsOf(cacheEnabled, r, o) != [] <==> cacheEnabled && !r.routing.bypassCache && produced)
            && (forall fill :: fill in FillsOf(cacheEnabled, r, o) ==>
                  produced && fill == CacheFill(o.decision.provider.name, o.result))
            && |FillsOf(cacheEnabled, r, o)| <= 1
            && |CallRecords(o)| == n + (if produced then 1 else 0)
            && (forall i :: 0 <= i < n ==> CallRecords(o)[i] == ProviderCall(Tried(o)[i], false, 0.0))
            && (produced ==> CallRecords(o)[n] == ProviderCall(o.decision.provider.name, true, o.result.estimatedCost))
  {
  }

  // ---------------------------------------------------------------------------------------------
  // The path of attempts
  // ---------------------------------------------------------------------------------------------

  /** Attempt i was routed to this provider, everything before it being excluded. */
  ghost predicate RoutedTo(registry: seq<Descriptor>, r: Request, ws: seq<World>, path: seq<string>, i: nat)
    requires i < |path| && i < |ws|
  {
    var d := Select(registry, r, NameSet(path[..i]), ws[i].turn);
    d.Ok? && d.value.provider.name == path[i]
  }

  predicate Failed(cacheEnabled: bool, r: Request, ws: seq<World>, path: seq<string>, i: nat)
    requires i < |path| && i < |ws|
  {
    Attempt(cacheEnabled, r, path[i], ws[i]).None?
  }

  /** The loop got through the first n attempts of the path, all of which failed. */
  ghost predicate FailedPath(
    registry: seq<Descriptor>, cacheEnabled: bool, r: Request, ws: seq<World>, path: seq<string>, n: nat)
    requires n <= |path| && n <= |ws|
  {
    forall i :: 0 <= i < n ==> RoutedTo(registry, r, ws, path, i) && Failed(cacheEnabled, r, ws, path, i)
  }

  /** How a run of the loop looks from outside: a path of failed attempts, and why it ended. */
  ghost predicate Explains(registry: seq<Descriptor>, cacheEnabled: bool, r: Request, ws: seq<World>, o: Outcome) {
    var path := Tried(o);
    && |path| <= MaxAttempts(registry, r) <= |ws|
    && match o
       case Answered(d, result, hit, _) =>
         && path != []
         && var last := |path| - 1;
         && FailedPath(registry, cacheEnabled, r, ws, path, last)
         && Select(registry, r, NameSet(path[..last]), ws[last].turn) == Ok(d)
         && d.provider.name == path[last]
         && Attempt(cacheEnabled, r, path[last], ws[last]) == Some((result, hit))
       case Exhausted(_) =>
         && FailedPath(registry, cacheEnabled, r, ws, path, |path|)
         && (|path| < MaxAttempts(registry, r) ==>
               path != [] && Select(registry, r, NameSet(path), ws[|path|].turn) == Err(NoEligibleProvider))
       case NothingEligible =>
         MaxAttempts(registry, r) > 0 && Select(registry, r, {}, ws[0].turn) == Err(NoEligibleProvider)
       case UnknownModelRequested =>
         r.model != "auto" && Select(registry, r, {}, ws[0].turn) == Err(UnknownModel)
  }

  lemma EndExplained(
    registry: seq<Descriptor>, cacheEnabled: bool, r: Request, ws: seq<World>, attempted: seq<string>)
    requires |attempted| < MaxAttempts(registry, r) <= |ws|
    requires FailedPath(registry, cacheEnabled, r, ws, attempted, |attempted|)
    requires Select(registry, r, NameSet(attempted), ws[|attempted|].turn).Err?
    ensures Explains(registry, cacheEnabled, r, ws, Continue(registry, cacheEnabled, r, ws, attempted))
  {
    hide Select;
    hide Attempt;
    AutoKnowsModel(registry, r, NameSet(attempted), ws[|attempted|].turn);
    if attempted == [] {
      assert NameSet(attempted) == {};
    } else {
      assert RoutedTo(registry, r, ws, attempted, 0);
      SameModelError(registry, r, NameSet(attempted[..0]), NameSet(attempted), ws[0].turn, ws[|attempted|].turn);
    }
  }

  /** Whether the model is known does not depend on what is excluded. */
  lemma SameModelError(registry: seq<Descriptor>, r: Request, one: set<string>, two: set<string>, t: nat, u: nat)
    ensures Select(registry, r, one, t) == Err(UnknownModel) <==> Select(registry, r, two, u) == Err(UnknownModel)
  {
  }

  lemma AutoKnowsModel(registry: seq<Descriptor>, r: Request, excluded: set<string>, turn: nat)
    ensures r.model == "auto" ==> Select(registry, r, excluded, turn) != Err(UnknownModel)
  {
  }

  lemma AnswerExplained(
    registry: seq<Descriptor>, cacheEnabled: bool, r: Request, ws: seq<World>, attempted: seq<string>, d: Decision)
    requires |attempted| < MaxAttempts(registry, r) <= |ws|
    requires FailedPath(registry, cacheEnabled, r, ws, attempted, |attempted|)
    requires Select(registry, r, NameSet(attempted), ws[|attempted|].turn) == Ok(d)
    requires Attempt(cacheEnabled, r, d.provider.name, ws[|attempted|]).Some?
    ensures Explains(registry, cacheEnabled, r, ws, Continue(registry, cacheEnabled, r, ws, attempted))
  {
    hide Select;
    hide Attempt;
    LongerPath(registry, cacheEnabled, r, ws, attempted, d.provider.name);
  }

  lemma {:induction false} ContinueExplained(
    registry: seq<Descriptor>, cacheEnabled: bool, r: Request, ws: seq<World>, attempted: seq<string>)
    requires |attempted| <= MaxAttempts(registry, r) <= |ws|
    requires FailedPath(registry, cacheEnabled, r, ws, attempted, |attempted|)
    ensures Explains(registry, cacheEnabled, r, ws, Continue(registry, cacheEnabled, r, ws, attempted))
    decreases MaxAttempts(registry, r) - |attempted|
  {
    hide Select;
    hide Attempt;
    if |attempted| < MaxAttempts(registry, r) {
      var selected := Select(registry, r, NameSet(attempted), ws[|attempted|].turn);
      if selected.Err? {
        EndExplained(registry, cacheEnabled, r, ws, attempted);
      } else {
        var name := selected.value.provider.name;
        if Attempt(cacheEnabled, r, name, ws[|attempted|]).Some? {
          AnswerExplained(registry, cacheEnabled, r, ws, attempted, selected.value);
        } else {
          FailureExplained(registry, cacheEnabled, r, ws, attempted, name);
          ContinueExplained(registry, cacheEnabled, r, ws, attempted + [name]);
        }
      }
    }
  }

  lemma FailureExplained(
    registry: seq<Descriptor>, cacheEnabled: bool, r: Request, ws: seq<World>, attempted: seq<string>, name: string)
    requires |attempted| < |ws| && FailedPath(registry, cacheEnabled, r, ws, attempted, |attempted|)
    requires var d := Select(registry, r, NameSet(attempted), ws[|attempted|].turn);
             d.Ok? && d.value.provider.name == name
    requires Attempt(cacheEnabled, r, name, ws[|attempted|]).None?
    ensures FailedPath(registry, cacheEnabled, r, ws, attempted + [name], |attempted| + 1)
  {
    LongerPath(registry, cacheEnabled, r, ws, attempted, name);
    var longer := attempted + [name];
    forall i | 0 <= i < |attempted| + 1
      ensures RoutedTo(registry, r, ws, longer, i) && Failed(cacheEnabled, r, ws, longer, i)
    {
    }
  }

  /** A path stays a path when a name is appended. */
  lemma LongerPath(
    registry: seq<Descriptor>, cacheEnabled: bool, r: Request, ws: seq<World>, path: seq<string>, name: string)
    requires |path| < |ws| && FailedPath(registry, cacheEnabled, r, ws, path, |path|)
    ensures (path + [name])[..|path|] == path
    ensures FailedPath(registry, cacheEnabled, r, ws, path + [name], |path|)
  {
    var longer := path + [name];
    forall i | 0 <= i < |path|
      ensures RoutedTo(registry, r, ws, longer, i) && Failed(cacheEnabled, r, ws, longer, i)
    {
      assert RoutedTo(registry, r, ws, path, i) && Failed(cacheEnabled, r, ws, path, i);
      assert longer[..i] == path[..i];
    }
  }

  lemma ServeExplained(registry: seq<Descriptor>, cacheEnabled: bool, r: Request, ws: seq<World>)
    requires MaxAttempts(registry, r) <= |ws|
    ensures Explains(registry, cacheEnabled, r, ws, Serve(registry, cacheEnabled, r, ws))
  {
    ContinueExplained(registry, cacheEnabled, r, ws, []);
  }

  /** Conversely a path of failed attempts is the path of the loop, as far as it goes. */
  lemma {:induction false} PathIsFollowed(
    registry: seq<Descriptor>, cacheEnabled: bool, r: Request, ws: seq<World>, path: seq<string>)
    requires |path| <= MaxAttempts(registry, r) <= |ws|
    requires FailedPath(registry, cacheEnabled, r, ws, path, |path|)
    ensures Serve(registry, cacheEnabled, r, ws) == Continue(registry, cacheEnabled, r, ws, path)
  {
    hide Select;
    hide Attempt;
    if path != [] {
      var front, n := path[..|path| - 1], |path| - 1;
      ShorterPath(registry, cacheEnabled, r, ws, path);
      PathIsFollowed(registry, cacheEnabled, r, ws, front);
      assert RoutedTo(registry, r, ws, path, n) && Failed(cacheEnabled, r, ws, path, n);
      assert path == front + [path[n]];
    }
  }

  lemma ShorterPath(registry: seq<Descriptor>, cacheEnabled: bool, r: Request, ws: seq<World>, path: seq<string>)
    requires path != [] && |path| <= |ws| && FailedPath(registry, cacheEnabled, r, ws, path, |path|)
    ensures FailedPath(registry, cacheEnabled, r, ws, path[..|path| - 1], |path| - 1)
  {
    hide Select;
    hide Attempt;
    var front := path[..|path| - 1];
    forall i | 0 <= i < |front|
      ensures RoutedTo(registry, r, ws, front, i) && Failed(cacheEnabled, r, ws, front, i)
    {
      assert RoutedTo(registry, r, ws, path, i) && Failed(cacheEnabled, r, ws, path, i);
      assert front[..i] == path[..i];
    }
  }

  /** Every attempt but possibly the last one on the path failed, and all of them were routed. */
  lemma PathIsRouted(registry: seq<Descriptor>, cacheEnabled: bool, r: Request, ws: seq<World>, i: nat)
    requires MaxAttempts(registry, r) <= |ws|
    requires i < |Tried(Serve(registry, cacheEnabled, r, ws))|
    ensures var path := Tried(Serve(registry, cacheEnabled, r, ws));
            |path| <= |ws| && RoutedTo(registry, r, ws, path, i)
  {
    ServeExplained(registry, cacheEnabled, r, ws);
  }

  // ---------------------------------------------------------------------------------------------
  // Exhaustive and bounded
  // ---------------------------------------------------------------------------------------------

  /** The providers the request could be served by before anything was attempted. */
  function InitiallyEligible(registry: seq<Descriptor>, r: Request): seq<Descriptor> {
    if r.model == "auto" then Eligible(registry, r, {})
    else
      match Resolve(registry, r.model)
      case None => []
      case Some(p) => if Satisfies(p, r) then [p] else []
  }

  ghost predicate Distinct(names: seq<string>) {
    forall i, j :: 0 <= i < j < |names| ==> names[i] != names[j]
  }

  lemma {:induction false} DistinctSize(names: seq<string>)
    requires Distinct(names)
    ensures |NameSet(names)| == |names|
  {
    if names != [] {
      var last := |names| - 1;
      DistinctSize(names[..last]);
      assert NameSet(names) == NameSet(names[..last]) + {names[last]};
      assert names[last] !in NameSet(names[..last]);
    }
  }

  lemma {:induction false} NamesSize(ps: seq<Descriptor>)
    ensures |NameSet(Names(ps))| <= |ps|
  {
    if ps == [] {
      assert NameSet(Names(ps)) == {};
    } else {
      var last := |ps| - 1;
      NamesSize(ps[..last]);
      assert Names(ps)[..last] == Names(ps[..last]);
      assert NameSet(Names(ps)) == NameSet(Names(ps[..last])) + {Names(ps)[last]};
    }
  }

  lemma NamesIn(ps: seq<Descriptor>, p: Descriptor)
    requires p in ps
    ensures p.name in NameSet(Names(ps))
  {
    var i :| 0 <= i < |ps| && ps[i] == p;
    assert Names(ps)[i] == p.name;
  }

  /** The attempted providers are distinct, and all of them were eligible from the start. */
  lemma PathWithinEligible(registry: seq<Descriptor>, cacheEnabled: bool, r: Request, ws: seq<World>)
    requires MaxAttempts(registry, r) <= |ws|
    ensures var path := Tried(Serve(registry, cacheEnabled, r, ws));
            && Distinct(path)
            && NameSet(path) <= NameSet(Names(InitiallyEligible(registry, r)))
  {
    var path := Tried(Serve(registry, cacheEnabled, r, ws));
    forall i | 0 <= i < |path|
      ensures path[i] !in NameSet(path[..i]) && path[i] in NameSet(Names(InitiallyEligible(registry, r)))
    {
      PathIsRouted(registry, cacheEnabled, r, ws, i);
      SelectionRespectsConstraints(registry, r, NameSet(path[..i]), ws[i].turn);
      NamesIn(InitiallyEligible(registry, r), Select(registry, r, NameSet(path[..i]), ws[i].turn).value.provider);
    }
    forall i, j | 0 <= i < j < |path|
      ensures path[i] != path[j]
    {
      assert path[i] in path[..j];
    }
  }

  /** If nothing is left to select, everything eligible has been attempted. */
  lemma NothingLeft(registry: seq<Descriptor>, r: Request, path: seq<string>, turn: nat)
    requires r.model == "auto" && !r.routing.policy.SingleProvider?
    requires Select(registry, r, NameSet(path), turn).Err?
    ensures NameSet(Names(InitiallyEligible(registry, r))) <= NameSet(path)
  {
    OwnExclusionsAreRedundant(registry, r, NameSet(path));
    assert Eligible(registry, r, NameSet(path)) == [];
    forall name | name in NameSet(Names(InitiallyEligible(registry, r)))
      ensures name in NameSet(path)
    {
      var es := InitiallyEligible(registry, r);
      var i :| 0 <= i < |es| && es[i].name == name;
      assert es[i] in es;
      assert es[i] !in Eligible(registry, r, NameSet(path));
    }
  }

  /** A set of distinct names as large as a set it lies in is that set. */
  lemma SameSize(small: set<string>, large: set<string>)
    requires small <= large && |small| >= |large|
    ensures small == large
  {
    assert |large - small| == |large| - |small|;
  }

  lemma SelectFails(registry: seq<Descriptor>, r: Request, turn: nat)
    requires r.model == "auto" && !r.routing.policy.SingleProvider?
    ensures Select(registry, r, {}, turn) == Err(NoEligibleProvider) <==> InitiallyEligible(registry, r) == []
    ensures Select(registry, r, {}, turn) != Err(UnknownModel)
  {
    OwnExclusionsAreRedundant(registry, r, {});
  }

  /** When the loop gives up, everything eligible has been attempted, once: the bound of one attempt per
      registered provider never cuts the search short. */
  lemma ExhaustedMeansAllTried(registry: seq<Descriptor>, cacheEnabled: bool, r: Request, ws: seq<World>)
    requires r.model == "auto" && !r.routing.policy.SingleProvider? && |registry| <= |ws|
    requires Serve(registry, cacheEnabled, r, ws).Exhausted?
    ensures NameSet(Tried(Serve(registry, cacheEnabled, r, ws))) == NameSet(Names(InitiallyEligible(registry, r)))
  {
    var path, es := Tried(Serve(registry, cacheEnabled, r, ws)), InitiallyEligible(registry, r);
    ServeExplained(registry, cacheEnabled, r, ws);
    PathWithinEligible(registry, cacheEnabled, r, ws);
    if |path| < |registry| {
      NothingLeft(registry, r, path, ws[|path|].turn);
    } else {
      DistinctSize(path);
      NamesSize(es);
      SameSize(NameSet(path), NameSet(Names(es)));
    }
  }

  /** The loop never gives up at once when there is something to try. */
  lemma EligibleMeansTried(registry: seq<Descriptor>, cacheEnabled: bool, r: Request, ws: seq<World>)
    requires r.model == "auto" && !r.routing.policy.SingleProvider? && |registry| <= |ws|
    ensures var o := Serve(registry, cacheEnabled, r, ws);
            && !o.UnknownModelRequested?
            && (o.NothingEligible? <==> registry != [] && InitiallyEligible(registry, r) == [])
  {
    var o := Serve(registry, cacheEnabled, r, ws);
    ServeExplained(registry, cacheEnabled, r, ws);
    PathWithinEligible(registry, cacheEnabled, r, ws);
    if registry != [] {
      SelectFails(registry, r, ws[0].turn);
    }
    if Tried(o) != [] {
      assert Tried(o)[0] in NameSet(Tried(o));
    }
  }

  /** For auto requests under every policy but single_provider, fallback is exhaustive: 422 exactly when nothing was
      eligible, and 503 exactly when something was and every attempt failed, in which case every eligible provider
      was attempted, once.  An empty registry, which the settings rule out, answers 503 as well. */
  lemma FallbackIsExhaustive(registry: seq<Descriptor>, cacheEnabled: bool, r: Request, ws: seq<World>)
    requires r.model == "auto" && !r.routing.policy.SingleProvider? && |registry| <= |ws|
    ensures var o := Serve(registry, cacheEnabled, r, ws);
            var path, es := Tried(o), InitiallyEligible(registry, r);
            && !o.UnknownModelRequested?
            && (o.NothingEligible? <==> registry != [] && es == [])
            && |path| <= |ws|
            && (o.Exhausted? <==> registry == [] ||
                                  (es != [] && forall i :: 0 <= i < |path| ==> Failed(cacheEnabled, r, ws, path, i)))
            && (o.Exhausted? ==> Distinct(path) && NameSet(path) == NameSet(Names(es)))
  {
    var o := Serve(registry, cacheEnabled, r, ws);
    var path := Tried(o);
    ServeExplained(registry, cacheEnabled, r, ws);
    EligibleMeansTried(registry, cacheEnabled, r, ws);
    PathWithinEligible(registry, cacheEnabled, r, ws);
    if o.Answered? {
      assert !Failed(cacheEnabled, r, ws, path, |path| - 1);
    } else if o.Exhausted? {
      ExhaustedMeansAllTried(registry, cacheEnabled, r, ws);
    }
  }

  lemma NamedProviderOnly(registry: seq<Descriptor>, r: Request, excluded: set<string>, turn: nat)
    requires r.model != "auto" || r.routing.policy.SingleProvider?
    requires Select(registry, r, excluded, turn).Ok?
    ensures var name := Select(registry, r, excluded, turn).value.provider.name;
            if r.model == "auto" then r.routing.preferredProvider == Some(name)
            else Resolve(registry, r.model).Some? && name == Resolve(registry, r.model).value.name
  {
  }

  /** Explicit-model requests attempt only the provider that serves the model, and single_provider requests only
      the preferred one: there is no silent substitution. */
  lemma NoSubstitution(registry: seq<Descriptor>, cacheEnabled: bool, r: Request, ws: seq<World>)
    requires r.model != "auto" || r.routing.policy.SingleProvider?
    requires MaxAttempts(registry, r) <= |ws|
    ensures var path := Tried(Serve(registry, cacheEnabled, r, ws));
            && |path| <= 1
            && (path != [] && r.model != "auto" ==>
                  Resolve(registry, r.model).Some? && path[0] == Resolve(registry, r.model).value.name)
            && (path != [] && r.model == "auto" ==> r.routing.preferredProvider == Some(path[0]))
  {
    var path := Tried(Serve(registry, cacheEnabled, r, ws));
    PathWithinEligible(registry, cacheEnabled, r, ws);
    if path != [] {
      PathIsRouted(registry, cacheEnabled, r, ws, 0);
      NamedProviderOnly(registry, r, NameSet(path[..0]), ws[0].turn);
    }
    if |path| > 1 {
      PathIsRouted(registry, cacheEnabled, r, ws, 1);
      NamedProviderOnly(registry, r, NameSet(path[..1]), ws[1].turn);
    }
  }

  /** The one provider that a request that names one can be served by. */
  ghost predicate Candidate(registry: seq<Descriptor>, r: Request, p: Descriptor) {
    p in Eligible(registry, r, {}) && NamedBy(registry, r, p)
  }

  lemma CandidateIsSelected(registry: seq<Descriptor>, r: Request, turn: nat)
    requires IsNamed(r)
    ensures Select(registry, r, {}, turn).Ok? <==> exists p :: Candidate(registry, r, p)
    ensures Select(registry, r, {}, turn).Ok? ==> Candidate(registry, r, Select(registry, r, {}, turn).value.provider)
  {
    hide Select;
    hide Eligible;
    hide NamedBy;
    SelectionSucceedsExactlyWhen(registry, r, {}, turn);
    if Select(registry, r, {}, turn).Ok? {
      SelectedIsEligible(registry, r, {}, turn);
      assert Candidate(registry, r, Select(registry, r, {}, turn).value.provider);
    }
    if exists p :: Candidate(registry, r, p) {
      var p :| Candidate(registry, r, p);
      assert p in Eligible(registry, r, {}) && NamedBy(registry, r, p);
      assert exists q :: q in Eligible(registry, r, {}) && (IsNamed(r) ==> NamedBy(registry, r, q));
    }
  }

  lemma SameName(registry: seq<Descriptor>, r: Request, p: Descriptor, q: Descriptor)
    requires IsNamed(r) && NamedBy(registry, r, p) && NamedBy(registry, r, q)
    ensures p.name == q.name
  {
  }

  /** What becomes of a request that names a provider: 404 exactly if it names a model that nobody serves, 422 exactly
      if its provider is known but not eligible, and otherwise its provider, and no other, is attempted once: the
      answer is that provider's, and 503 exactly if that attempt fails.  An auto request on an empty registry answers
      503. */
  lemma NamedRequestExactly(registry: seq<Descriptor>, cacheEnabled: bool, r: Request, ws: seq<World>)
    requires IsNamed(r) && MaxAttempts(registry, r) <= |ws|
    ensures var o := Serve(registry, cacheEnabled, r, ws);
            && (o.UnknownModelRequested? <==> r.model != "auto" && forall p :: p in registry ==> r.model !in p.models)
            && (o.NothingEligible? <==>
                  && !o.UnknownModelRequested? && MaxAttempts(registry, r) > 0
                  && !exists p :: Candidate(registry, r, p))
            && (MaxAttempts(registry, r) == 0 ==> o == Exhausted([]))
            && (forall p :: Candidate(registry, r, p) ==>
                  && MaxAttempts(registry, r) > 0 && Tried(o) == [p.name]
                  && (o.Exhausted? <==> Attempt(cacheEnabled, r, p.name, ws[0]).None?)
                  && (o.Answered? <==> Attempt(cacheEnabled, r, p.name, ws[0]).Some?))
  {
    hide Select;
    hide Attempt;
    hide Eligible;
    hide NamedBy;
    var o := Serve(registry, cacheEnabled, r, ws);
    NoSubstitution(registry, cacheEnabled, r, ws);
    if MaxAttempts(registry, r) > 0 {
      FirstDecision(registry, cacheEnabled, r, ws);
      CandidateIsSelected(registry, r, ws[0].turn);
      var selected := Select(registry, r, {}, ws[0].turn);
      match selected {
        case Ok(_) =>
        case Err(UnknownModel) =>
        case Err(NoEligibleProvider) =>
      }
      SelectionSucceedsExactlyWhen(registry, r, {}, ws[0].turn);
      forall p | Candidate(registry, r, p)
        ensures Tried(o) == [p.name]
        ensures o.Exhausted? <==> Attempt(cacheEnabled, r, p.name, ws[0]).None?
        ensures o.Answered? <==> Attempt(cacheEnabled, r, p.name, ws[0]).Some?
      {
        SameName(registry, r, p, selected.value.provider);
      }
    } else {
      NobodyInEmpty(registry, r);
    }
  }

  lemma NobodyInEmpty(registry: seq<Descriptor>, r: Request)
    requires MaxAttempts(registry, r) == 0
    ensures r.model == "auto" && forall p :: !Candidate(registry, r, p)
  {
  }

  /** How the loop goes on from the first decision, for a request that attempts at most one provider. */
  lemma FirstDecision(registry: seq<Descriptor>, cacheEnabled: bool, r: Request, ws: seq<World>)
    requires MaxAttempts(registry, r) > 0 && MaxAttempts(registry, r) <= |ws|
    requires |Tried(Serve(registry, cacheEnabled, r, ws))| <= 1
    ensures var o, selected := Serve(registry, cacheEnabled, r, ws), Select(registry, r, {}, ws[0].turn);
            && (o.UnknownModelRequested? <==> selected == Err(UnknownModel))
            && (o.NothingEligible? <==> selected == Err(NoEligibleProvider))
            && (selected.Ok? ==>
                  var name := selected.value.provider.name;
                  && Tried(o) == [name]
                  && (o.Exhausted? <==> Attempt(cacheEnabled, r, name, ws[0]).None?)
                  && (o.Answered? <==> Attempt(cacheEnabled, r, name, ws[0]).Some?))
  {
    hide Select;
    hide Attempt;
    assert NameSet([]) == {};
    var selected := Select(registry, r, {}, ws[0].turn);
    if selected.Ok? && Attempt(cacheEnabled, r, selected.value.provider.name, ws[0]).None? {
      var path := [selected.value.provider.name];
      FailedFirst(registry, cacheEnabled, r, ws, selected.value);
    }
  }

  /** After a failed first attempt the loop has attempted more or given up. */
  lemma FailedFirst(registry: seq<Descriptor>, cacheEnabled: bool, r: Request, ws: seq<World>, d: Decision)
    requires 0 < MaxAttempts(registry, r) <= |ws| && Select(registry, r, {}, ws[0].turn) == Ok(d)
    requires Attempt(cacheEnabled, r, d.provider.name, ws[0]).None?
    requires |Tried(Serve(registry, cacheEnabled, r, ws))| <= 1
    ensures Serve(registry, cacheEnabled, r, ws) == Exhausted([d.provider.name])
  {
    hide Select;
    hide Attempt;
    assert NameSet([]) == {};
    var path := [d.provider.name];
    assert [] + path == path && path[..0] == [];
    assert RoutedTo(registry, r, ws, path, 0) && Failed(cacheEnabled, r, ws, path, 0);
    PathIsFollowed(registry, cacheEnabled, r, ws, path);
    ContinueTries(registry, cacheEnabled, r, ws, path);
    var o := Serve(registry, cacheEnabled, r, ws);
    if !o.Exhausted? {
      ServeExplained(registry, cacheEnabled, r, ws);
    }
  }

  lemma {:induction false} ContinueTries(
    registry: seq<Descriptor>, cacheEnabled: bool, r: Request, ws: seq<World>, path: seq<string>)
    requires |path| <= MaxAttempts(registry, r) <= |ws| && path != []
    requires FailedPath(registry, cacheEnabled, r, ws, path, |path|)
    ensures var o := Continue(registry, cacheEnabled, r, ws, path);
            && (o.UnknownModelRequested? || o.NothingEligible? || path <= Tried(o))
            && (o.Answered? ==> |Tried(o)| > |path|)
            && !o.NothingEligible? && !o.UnknownModelRequested?
    decreases MaxAttempts(registry, r) - |path|
  {
    hide Select;
    hide Attempt;
    if |path| < MaxAttempts(registry, r) {
      var selected := Select(registry, r, NameSet(path), ws[|path|].turn);
      assert RoutedTo(registry, r, ws, path, 0);
      SameModelError(registry, r, NameSet(path[..0]), NameSet(path), ws[0].turn, ws[|path|].turn);
      if selected.Ok? && Attempt(cacheEnabled, r, selected.value.provider.name, ws[|path|]).None? {
        FailureExplained(registry, cacheEnabled, r, ws, path, selected.value.provider.name);
        ContinueTries(registry, cacheEnabled, r, ws, path + [selected.value.provider.name]);
      }
    }
  }

  // ---------------------------------------------------------------------------------------------
  // The order of attempts
  // ---------------------------------------------------------------------------------------------

  lemma OrderOfEligible(registry: seq<Descriptor>, r: Request)
    requires UniqueNames(registry) && r.model == "auto"
    ensures var es := InitiallyEligible(registry, r);
            var order := StableSort(es, r);
            && |order| == |es|
            && InPreferenceOrder(registry, r, order)
            && forall p :: p in order <==> p in es
  {
    hide StableSort;
    hide InPreferenceOrder;
    hide Satisfies;
    var es := InitiallyEligible(registry, r);
    EligibleInRegistryOrder(registry, r, {});
    StableSortOrders(registry, r, es);
    SameElements(StableSort(es, r), es);
  }

  /** There are no more attempts than eligible providers. */
  lemma PathIsNoLonger(registry: seq<Descriptor>, cacheEnabled: bool, r: Request, ws: seq<World>)
    requires MaxAttempts(registry, r) <= |ws|
    ensures |Tried(Serve(registry, cacheEnabled, r, ws))| <= |InitiallyEligible(registry, r)|
  {
    hide Serve;
    hide InitiallyEligible;
    var path, es := Tried(Serve(registry, cacheEnabled, r, ws)), InitiallyEligible(registry, r);
    PathWithinEligible(registry, cacheEnabled, r, ws);
    DistinctSize(path);
    NamesSize(es);
    SubsetSize(NameSet(path), NameSet(Names(es)));
  }

  /** Under a key-driven policy the attempts follow the stable sort of the initially eligible providers. */
  lemma PathFollowsPreference(registry: seq<Descriptor>, cacheEnabled: bool, r: Request, ws: seq<World>)
    requires UniqueNames(registry) && r.model == "auto" && KeyDriven(r.routing.policy) && |registry| <= |ws|
    ensures Tried(Serve(registry, cacheEnabled, r, ws)) <= Names(StableSort(InitiallyEligible(registry, r), r))
  {
    hide Serve;
    hide StableSort;
    hide InitiallyEligible;
    hide KeyDriven;
    hide InPreferenceOrder;
    hide UniqueNames;
    var path := Tried(Serve(registry, cacheEnabled, r, ws));
    var order := StableSort(InitiallyEligible(registry, r), r);
    OrderOfEligible(registry, r);
    PathIsNoLonger(registry, cacheEnabled, r, ws);
    FollowsUpTo(registry, cacheEnabled, r, ws, order, |path|);
    assert path == Names(order)[..|path|];
  }

  lemma SubsetSize(small: set<string>, large: set<string>)
    requires small <= large
    ensures |small| <= |large|
  {
    assert |large - small| == |large| - |small|;
  }

  lemma {:induction false} FollowsUpTo(
    registry: seq<Descriptor>, cacheEnabled: bool, r: Request, ws: seq<World>, order: seq<Descriptor>, n: nat)
    requires UniqueNames(registry) && r.model == "auto" && KeyDriven(r.routing.policy) && |registry| <= |ws|
    requires n <= |Tried(Serve(registry, cacheEnabled, r, ws))| && n <= |order|
    requires InPreferenceOrder(registry, r, order)
    requires forall p :: p in order <==> p in InitiallyEligible(registry, r)
    ensures forall i :: 0 <= i < n ==> Tried(Serve(registry, cacheEnabled, r, ws))[i] == order[i].name
  {
    hide Select;
    hide Attempt;
    hide Satisfies;
    hide Serve;
    hide InPreferenceOrder;
    hide UniqueNames;
    hide InitiallyEligible;
    if n > 0 {
      var path := Tried(Serve(registry, cacheEnabled, r, ws));
      var i := n - 1;
      FollowsUpTo(registry, cacheEnabled, r, ws, order, i);
      PathIsRouted(registry, cacheEnabled, r, ws, i);
      NextSelected(registry, r, order, path[..i], ws[i].turn);
    }
  }

  lemma OrderHasDistinctNames(registry: seq<Descriptor>, r: Request, order: seq<Descriptor>, i: nat, j: nat)
    requires UniqueNames(registry) && InPreferenceOrder(registry, r, order)
    requires i < j < |order|
    ensures order[i].name != order[j].name
  {
    assert order[i] in order && order[j] in order;
    var a, b := Position(registry, order[i]), Position(registry, order[j]);
    assert Before(registry, r, order[i], order[j]);
  }

  /** After the first i providers of the order, the next selection takes the i-th. */
  lemma NextInOrder(registry: seq<Descriptor>, r: Request, order: seq<Descriptor>, tried: seq<string>, turn: nat)
    requires UniqueNames(registry) && KeyDriven(r.routing.policy)
    requires InPreferenceOrder(registry, r, order)
    requires forall p :: p in order <==> p in Eligible(registry, r, {})
    requires |tried| < |order| && forall i :: 0 <= i < |tried| ==> tried[i] == order[i].name
    requires Eligible(registry, r, NameSet(tried)) != []
    ensures var es := Eligible(registry, r, NameSet(tried));
            es[Choose(es, r, turn).value] == order[|tried|]
  {
    hide Choose;
    hide Key;
    hide Satisfies;
    hide UniqueNames;
    var es := Eligible(registry, r, NameSet(tried));
    var p, q := es[Choose(es, r, turn).value], order[|tried|];
    assert p in es && q in order;
    assert q in es by {
      forall i | 0 <= i < |tried| ensures tried[i] != q.name {
        OrderHasDistinctNames(registry, r, order, i, |tried|);
      }
    }
    ChoiceIsFirst(registry, r, NameSet(tried), turn, q);
    var m :| 0 <= m < |order| && order[m] == p;
    assert p.name !in NameSet(tried);
    assert m >= |tried|;
  }

  lemma NextSelected(registry: seq<Descriptor>, r: Request, order: seq<Descriptor>, tried: seq<string>, turn: nat)
    requires UniqueNames(registry) && r.model == "auto" && KeyDriven(r.routing.policy)
    requires InPreferenceOrder(registry, r, order)
    requires forall p :: p in order <==> p in InitiallyEligible(registry, r)
    requires |tried| < |order| && forall i :: 0 <= i < |tried| ==> tried[i] == order[i].name
    requires Select(registry, r, NameSet(tried), turn).Ok?
    ensures Select(registry, r, NameSet(tried), turn).value.provider == order[|tried|]
  {
    OwnExclusionsAreRedundant(registry, r, NameSet(tried));
    NextInOrder(registry, r, order, tried, turn);
  }

  // ---------------------------------------------------------------------------------------------
  // What an answer reports
  // ---------------------------------------------------------------------------------------------

  /** The eligible providers a decision reports are the initially eligible ones without the excluded. */
  lemma ReportedEligible(registry: seq<Descriptor>, r: Request, tried: seq<string>, turn: nat)
    requires Select(registry, r, NameSet(tried), turn).Ok?
    requires r.model != "auto" ==> tried == []
    ensures NameSet(Select(registry, r, NameSet(tried), turn).value.eligible)
         == NameSet(Names(InitiallyEligible(registry, r))) - NameSet(tried)
  {
    if r.model == "auto" {
      OwnExclusionsAreRedundant(registry, r, NameSet(tried));
      EligibleNames(registry, r, tried);
    } else {
      assert Names([Resolve(registry, r.model).value]) == [Resolve(registry, r.model).value.name];
    }
  }

  /** On every answer, the attempted providers other than the last and the reported eligible providers partition
      the initially eligible ones; the reported provider is the last one attempted and satisfies every constraint, the
      result is what the cache or the call returned for that provider, and exactly the others failed. */
  lemma AnswerReport(registry: seq<Descriptor>, cacheEnabled: bool, r: Request, ws: seq<World>)
    requires MaxAttempts(registry, r) <= |ws| && Serve(registry, cacheEnabled, r, ws).Answered?
    ensures var o := Serve(registry, cacheEnabled, r, ws);
            var last := |o.attempted| - 1;
            && 0 <= last < |ws|
            && NameSet(o.attempted[..last]) !! NameSet(o.decision.eligible)
            && NameSet(o.attempted[..last]) + NameSet(o.decision.eligible)
                 == NameSet(Names(InitiallyEligible(registry, r)))
            && o.decision.provider.name == o.attempted[last]
            && o.decision.provider.name in o.decision.eligible
            && o.decision.provider in registry && Satisfies(o.decision.provider, r)
            && o.decision.estimatedCost == EstimateCost(o.decision.provider, r)
            && Attempt(cacheEnabled, r, o.decision.provider.name, ws[last]) == Some((o.result, o.cacheHit))
            && forall i :: 0 <= i < last ==> Failed(cacheEnabled, r, ws, o.attempted, i)
  {
    hide Select;
    hide Attempt;
    hide Satisfies;
    hide EstimateCost;
    hide Serve;
    hide InitiallyEligible;
    var o := Serve(registry, cacheEnabled, r, ws);
    ServeExplained(registry, cacheEnabled, r, ws);
    PathWithinEligible(registry, cacheEnabled, r, ws);
    var last := |o.attempted| - 1;
    var before := o.attempted[..last];
    SelectionRespectsConstraints(registry, r, NameSet(before), ws[last].turn);
    ReportedEligible(registry, r, before, ws[last].turn);
    Partition(NameSet(before), NameSet(o.decision.eligible), NameSet(Names(InitiallyEligible(registry, r))));
  }

  lemma Partition(one: set<string>, two: set<string>, all: set<string>)
    requires one <= all && two == all - one
    ensures one !! two && one + two == all
  {
  }

  lemma EligibleNames(registry: seq<Descriptor>, r: Request, tried: seq<string>)
    ensures NameSet(Names(Eligible(registry, r, NameSet(tried))))
         == NameSet(Names(Eligible(registry, r, {}))) - NameSet(tried)
  {
    var left, all := Eligible(registry, r, NameSet(tried)), Eligible(registry, r, {});
    forall name | name in NameSet(Names(left))
      ensures name in NameSet(Names(all)) && name !in NameSet(tried)
    {
      var i :| 0 <= i < |left| && left[i].name == name;
      assert left[i] in left;
      NamesIn(all, left[i]);
    }
    forall name | name in NameSet(Names(all)) && name !in NameSet(tried)
      ensures name in NameSet(Names(left))
    {
      var i :| 0 <= i < |all| && all[i].name == name;
      assert all[i] in all;
      NamesIn(left, all[i]);
    }
  }
}
