/** Runs of the gateway and their history: the backend is what was asked of it makes it, every cache hit is a result
    that a provider gave to a request of the run, and round-robin decisions go round (control_plane/cache.py:93-148,
    control_plane/routing.py:84-88, control_plane/main.py:336-380). */
module ServiceHistory {
  import opened Contracts
  import opened Routing
  import opened Fallback
  import opened FallbackTheorems
  import opened ResponseCache
  import opened Idempotency
  import opened Gateway
  import opened Accounting
  import opened Service
  import KeyValue
  import RoundRobin

  // ---------------------------------------------------------------------------------------------
  // The backend
  // ---------------------------------------------------------------------------------------------

  /** A step leaves the backend as the operation it asks for does. */
  lemma AdvanceUsesBackend(c: Config, j: Job, s: Shared, e: Env)
    ensures var used := BackendUse(c, j, e);
            && |used| <= 1
            && Advance(c, j, s, e).shared.backend
               == (if used == [] then s.backend else KeyValue.Step(s.backend, OpOf(c.cacheTtl, used[0])).0)
            && (used != [] ==> used[0].now == e.at)
  {
    hide KeyValue.Step;
    hide Select;
    hide Rejection;
    hide Judge;
    hide BodyOf;
    hide TakesTurn;
  }

  ghost predicate InOrder(history: seq<ResponseCache.Event<Completion>>, now: real) {
    && (forall i, j :: 0 <= i < j < |history| ==> history[i].now <= history[j].now)
    && (forall i :: 0 <= i < |history| ==> history[i].now <= now)
  }

  lemma OneMoreOp(ttl: int, history: seq<ResponseCache.Event<Completion>>, e: ResponseCache.Event<Completion>)
    ensures KeyValue.Run(Ops(ttl, history + [e])) == KeyValue.Step(KeyValue.Run(Ops(ttl, history)), OpOf(ttl, e)).0
  {
    hide KeyValue.Step;
    hide OpOf;
    var ops := Ops(ttl, history + [e]);
    assert ops[..|ops| - 1] == Ops(ttl, history);
  }

  lemma NothingUsed(c: Config, start: real)
    ensures InOrder(Initial(start).history, Initial(start).now)
  {
  }

  lemma StepUsesBackend(c: Config, s: State, a: Action)
    requires s.shared.backend == KeyValue.Run(Ops(c.cacheTtl, s.history)) && InOrder(s.history, s.now) && Enabled(s, a)
    ensures var s' := Step(c, s, a);
            s'.shared.backend == KeyValue.Run(Ops(c.cacheTtl, s'.history)) && InOrder(s'.history, s'.now)
  {
    hide Advance;
    hide BackendUse;
    hide KeyValue.Step;
    hide KeyValue.Run;
    hide OpOf;
    if a.Move? {
      var used := BackendUse(c, s.jobs[a.job], a.env);
      AdvanceUsesBackend(c, s.jobs[a.job], s.shared, a.env);
      if used == [] {
        assert s.history + used == s.history;
      } else {
        assert used == [used[0]];
        OneMoreOp(c.cacheTtl, s.history, used[0]);
      }
    }
  }

  lemma {:induction false} LeadsUsesBackend(c: Config, start: real, actions: seq<Action>, s: State)
    requires Leads(c, Initial(start), actions, s)
    ensures s.shared.backend == KeyValue.Run(Ops(c.cacheTtl, s.history))
    ensures InOrder(s.history, s.now)
    decreases |actions|
  {
    hide Step;
    hide Enabled;
    hide InOrder;
    if actions == [] {
      NothingUsed(c, start);
      assert Ops(c.cacheTtl, s.history) == [];
    } else {
      var last := actions[|actions| - 1];
      var before :| Leads(c, Initial(start), actions[..|actions| - 1], before) && Enabled(before, last) &&
                    s == Step(c, before, last);
      LeadsUsesBackend(c, start, actions[..|actions| - 1], before);
      StepUsesBackend(c, before, last);
    }
  }

  /** What a request finds in the cache is what the whole history of the backend says, so the laws of that history hold
      of it: HitIsGenuine and KeptResultIsFound. */
  lemma LookupFindsHistory(c: Config, start: real, s: State, k: nat, env: Env)
    requires Reachable(c, start, s) && Enabled(s, Move(k, env)) && s.jobs[k].phase.Looking?
    ensures var j := s.jobs[k];
            var lookup := CacheLookup(j.phase.decision.provider.name, j.visit.request, env.at, env.fails);
            var found := Found(c.cacheTtl, s.history + [lookup], |s.history|);
            var after := Step(c, s, Move(k, env)).jobs[k].phase;
            && InOrder(s.history + [lookup], env.at)
            && after == match found
                        case Some(result) => Answering(j.phase.decision, result, true)
                        case None => Calling(j.phase.decision, j.phase.turn)
  {
    hide Leads;
    hide KeyValue.Step;
    hide Decoded;
    var actions :| Leads(c, Initial(start), actions, s);
    LeadsUsesBackend(c, start, actions, s);
    var j := s.jobs[k];
    var lookup := CacheLookup(j.phase.decision.provider.name, j.visit.request, env.at, env.fails);
    AnswerOfLast(c.cacheTtl, s.history, lookup);
  }

  lemma AnswerOfLast(ttl: int, history: seq<ResponseCache.Event<Completion>>, e: ResponseCache.Event<Completion>)
    ensures KeyValue.Answer(Ops(ttl, history + [e]), |history|)
         == KeyValue.Step(KeyValue.Run(Ops(ttl, history)), OpOf(ttl, e)).1
  {
    hide KeyValue.Step;
    hide OpOf;
    var ops := Ops(ttl, history + [e]);
    assert ops[..|history|] == Ops(ttl, history);
  }

  // ---------------------------------------------------------------------------------------------
  // Where cached results come from
  // ---------------------------------------------------------------------------------------------

  /** The provider answered this request with this result. */
  ghost predicate GotFrom(j: Job, provider: string, r: Request, result: ProviderResult) {
    j.visit.request == r && exists i :: 0 <= i < |j.worlds| && j.worlds[i].answer(provider) == Success(result)
  }

  ghost predicate FromRun(jobs: seq<Job>, e: ResponseCache.Event<Completion>) {
    e.Produced? ==> exists m :: 0 <= m < |jobs| && GotFrom(jobs[m], e.provider, e.request, e.result)
  }

  ghost predicate AllFromRun(s: State) {
    forall i :: 0 <= i < |s.history| ==> FromRun(s.jobs, s.history[i])
  }

  /** Requests stay, and what they have met is not forgotten. */
  ghost predicate Continues(jobs: seq<Job>, jobs': seq<Job>) {
    && |jobs| <= |jobs'|
    && forall m :: 0 <= m < |jobs| ==> jobs'[m].visit == jobs[m].visit && jobs[m].worlds <= jobs'[m].worlds
  }

  lemma FromRunStays(jobs: seq<Job>, jobs': seq<Job>, e: ResponseCache.Event<Completion>)
    requires Continues(jobs, jobs') && FromRun(jobs, e)
    ensures FromRun(jobs', e)
  {
    if e.Produced? {
      var m :| 0 <= m < |jobs| && GotFrom(jobs[m], e.provider, e.request, e.result);
      var i :| 0 <= i < |jobs[m].worlds| && jobs[m].worlds[i].answer(e.provider) == Success(e.result);
      assert jobs'[m].worlds[i] == jobs[m].worlds[i];
      assert GotFrom(jobs'[m], e.provider, e.request, e.result);
    }
  }

  lemma AdvanceContinues(c: Config, j: Job, s: Shared, e: Env)
    ensures Advance(c, j, s, e).job.visit == j.visit && j.worlds <= Advance(c, j, s, e).job.worlds
  {
    hide Select;
    hide Rejection;
    hide KeyValue.Step;
    hide TakesTurn;
    hide BodyOf;
  }

  /** A request about to fill the cache got the result from the provider in its last attempt. */
  lemma FillingGotResult(c: Config, j: Job, e: Env, trace: seq<Telemetry.Record>)
    requires Progress(c, j, trace) && j.phase.Filling?
    ensures GotFrom(j, j.phase.decision.provider.name, j.visit.request, j.phase.result)
  {
    hide Select;
    hide OnPath;
    var name := j.phase.decision.provider.name;
    AttemptMeans(c.cacheEnabled, j.visit.request, name, j.worlds[|j.failed|], j.phase.result);
  }

  lemma UseIsFromRun(c: Config, s: State, k: nat, env: Env)
    requires AllProgress(c, s) && k < |s.jobs|
    ensures forall e :: e in BackendUse(c, s.jobs[k], env) ==> FromRun(s.jobs, e)
  {
    hide Progress;
    hide GotFrom;
    hide BodyOf;
    hide Rejection;
    var j := s.jobs[k];
    assert Progress(c, j, Project(s.log, k));
    if j.phase.Filling? {
      FillingGotResult(c, j, env, Project(s.log, k));
    }
  }

  lemma NothingFromRun(c: Config, start: real)
    ensures AllFromRun(Initial(start)) && AllProgress(c, Initial(start))
  {
  }

  lemma StepFromRun(c: Config, s: State, a: Action)
    requires AllFromRun(s) && AllProgress(c, s) && Enabled(s, a)
    ensures AllFromRun(Step(c, s, a)) && AllProgress(c, Step(c, s, a))
  {
    hide Advance;
    hide BackendUse;
    hide FromRun;
    hide AllProgress;
    var s' := Step(c, s, a);
    StepProgresses(c, s, a);
    if a.Move? {
      UseIsFromRun(c, s, a.job, a.env);
      AdvanceContinues(c, s.jobs[a.job], s.shared, a.env);
    }
    assert Continues(s.jobs, s'.jobs);
    forall i | 0 <= i < |s'.history| ensures FromRun(s'.jobs, s'.history[i]) {
      var e := s'.history[i];
      if i < |s.history| {
        assert s.history[i] == e;
      } else {
        assert e in BackendUse(c, s.jobs[a.job], a.env);
      }
      FromRunStays(s.jobs, s'.jobs, e);
    }
  }

  lemma {:induction false} LeadsFromRun(c: Config, start: real, actions: seq<Action>, s: State)
    requires Leads(c, Initial(start), actions, s)
    ensures AllFromRun(s) && AllProgress(c, s)
    decreases |actions|
  {
    hide Step;
    hide Enabled;
    hide AllProgress;
    hide AllFromRun;
    if actions == [] {
      NothingFromRun(c, start);
    } else {
      var last := actions[|actions| - 1];
      var before :| Leads(c, Initial(start), actions[..|actions| - 1], before) && Enabled(before, last) &&
                    s == Step(c, before, last);
      LeadsFromRun(c, start, actions[..|actions| - 1], before);
      StepFromRun(c, before, last);
    }
  }

  /** In every run, whatever fails: a cache hit is a result that the same provider gave, less than the time to live
      ago, to a request of the run for the same model, messages, temperature and max_tokens, and the latest one kept. */
  lemma CacheHitWasProduced(c: Config, start: real, s: State, k: nat, env: Env) returns (i: nat, m: nat)
    requires Reachable(c, start, s) && Enabled(s, Move(k, env)) && s.jobs[k].phase.Looking?
    requires Step(c, s, Move(k, env)).jobs[k].phase.Answering?
    ensures i < |s.history| && m < |s.jobs| && s.history[i].Produced?
    ensures var d, r := s.jobs[k].phase.decision, s.jobs[k].visit.request;
            var result := Step(c, s, Move(k, env)).jobs[k].phase.result;
            var origin := s.jobs[m].visit.request;
            && GotFrom(s.jobs[m], d.provider.name, origin, result)
            && origin.model == r.model && origin.messages == r.messages
            && origin.temperature == r.temperature && origin.maxTokens == r.maxTokens
            && env.at < s.history[i].now + c.cacheTtl as real
            && forall n :: i < n < |s.history| && s.history[n].Produced? && !s.history[n].fate.Lost? ==>
                 MaterialOf(s.history[n].request, s.history[n].provider) != MaterialOf(r, d.provider.name)
  {
    hide Leads;
    hide Step;
    hide Found;
    hide GotFrom;
    hide Progress;
    LookupFindsHistory(c, start, s, k, env);
    var j := s.jobs[k];
    var lookup := CacheLookup(j.phase.decision.provider.name, j.visit.request, env.at, env.fails);
    var es := s.history + [lookup];
    i := HitIsGenuine(c.cacheTtl, es, |s.history|);
    assert es[i] == s.history[i];
    var actions :| Leads(c, Initial(start), actions, s);
    LeadsFromRun(c, start, actions, s);
    assert FromRun(s.jobs, s.history[i]);
    m :| 0 <= m < |s.jobs| && GotFrom(s.jobs[m], s.history[i].provider, s.history[i].request, s.history[i].result);
    GotByRequest(s.jobs[m], s.history[i].provider, s.history[i].request, s.history[i].result);
    forall n | i < n < |s.history| && s.history[n].Produced? && !s.history[n].fate.Lost?
      ensures MaterialOf(s.history[n].request, s.history[n].provider)
           != MaterialOf(j.visit.request, j.phase.decision.provider.name)
    {
      assert es[n] == s.history[n];
    }
  }

  lemma GotByRequest(j: Job, provider: string, r: Request, result: ProviderResult)
    requires GotFrom(j, provider, r, result)
    ensures j.visit.request == r
  {
  }

  // ---------------------------------------------------------------------------------------------
  // Round robin
  // ---------------------------------------------------------------------------------------------

  /** A step moves the index as the decision it asks for does. */
  lemma AdvanceTakesTurn(c: Config, j: Job, s: Shared, e: Env)
    ensures var asks := AsksOf(c, j);
            && |asks| <= 1
            && Advance(c, j, s, e).shared.turn
               == s.turn + if asks != [] && TakesTurn(c.registry, asks[0].request, asks[0].excluded) then 1 else 0
  {
    hide Select;
    hide Rejection;
    hide KeyValue.Step;
    hide TakesTurn;
    hide BodyOf;
    if j.phase.Choosing? {
      RouteTakesTurn(c, j, s, e);
    }
  }

  lemma RouteTakesTurn(c: Config, j: Job, s: Shared, e: Env)
    requires j.phase.Choosing?
    ensures Route(c, j, s, e).shared.turn
         == s.turn + if |j.failed| < MaxAttempts(c.registry, j.visit.request) &&
                        TakesTurn(c.registry, j.visit.request, NameSet(j.failed)) then 1 else 0
  {
    hide Select;
    if |j.failed| < MaxAttempts(c.registry, j.visit.request) {
      TurnNeedsProvider(c.registry, j.visit.request, NameSet(j.failed), s.turn);
    }
  }

  /** A turn is only taken when a provider is selected, whatever the index. */
  lemma TurnNeedsProvider(registry: seq<Descriptor>, r: Request, excluded: set<string>, turn: nat)
    ensures TakesTurn(registry, r, excluded) ==> Select(registry, r, excluded, turn).Ok?
  {
    hide Satisfies;
    hide EstimateCost;
  }

  lemma NoTurnsYet(registry: seq<Descriptor>)
    ensures RoundRobin.Turns(registry, [], 0) == ([], 0)
  {
  }

  lemma {:induction false} LeadsGoesRound(c: Config, start: real, actions: seq<Action>, s: State)
    requires Leads(c, Initial(start), actions, s)
    ensures s.shared.turn == RoundRobin.Turns(c.registry, s.asks, 0).1
    decreases |actions|
  {
    hide Advance;
    hide AsksOf;
    hide TakesTurn;
    hide Select;
    hide RoundRobin.Turns;
    if actions == [] {
      NoTurnsYet(c.registry);
    } else {
      var last := actions[|actions| - 1];
      var before :| Leads(c, Initial(start), actions[..|actions| - 1], before) && Enabled(before, last) &&
                    s == Step(c, before, last);
      LeadsGoesRound(c, start, actions[..|actions| - 1], before);
      if last.Move? {
        var asks := AsksOf(c, before.jobs[last.job]);
        AdvanceTakesTurn(c, before.jobs[last.job], before.shared, last.env);
        if asks == [] {
          assert before.asks + asks == before.asks;
        } else {
          assert asks == [asks[0]];
          RoundRobin.TurnsExtend(c.registry, before.asks, asks[0], 0);
        }
      }
    }
  }

  /** The provider that a request turned to in a step from `Choosing`. */
  function TurnedTo(before: Job, after: Job): Option<string> {
    match after.phase
    case Looking(d, _) => Some(d.provider.name)
    case Calling(d, _) => Some(d.provider.name)
    case Choosing => if |after.failed| > |before.failed| then Some(after.failed[|after.failed| - 1]) else None
    case _ => None
  }

  /** In every run the round-robin decisions are the turns of one run of decisions: each takes the provider that the
      turns so far lead to, and moves the index by one; no other step does. */
  lemma DecisionsGoRound(c: Config, start: real, s: State, k: nat, env: Env)
    requires Reachable(c, start, s) && Enabled(s, Move(k, env))
    ensures var s', asks := Step(c, s, Move(k, env)), AsksOf(c, s.jobs[k]);
            var takes := asks != [] && TakesTurn(c.registry, asks[0].request, asks[0].excluded);
            && s'.shared.turn == s.shared.turn + (if takes then 1 else 0)
            && (takes ==>
                  && TurnedTo(s.jobs[k], s'.jobs[k]).Some?
                  && RoundRobin.Turns(c.registry, s'.asks, 0).0 ==
                     RoundRobin.Turns(c.registry, s.asks, 0).0 + [TurnedTo(s.jobs[k], s'.jobs[k]).value])
  {
    hide Leads;
    hide Advance;
    hide TakesTurn;
    hide Select;
    hide RoundRobin.Turns;
    var actions :| Leads(c, Initial(start), actions, s);
    LeadsGoesRound(c, start, actions, s);
    var j := s.jobs[k];
    AdvanceTakesTurn(c, j, s.shared, env);
    var asks := AsksOf(c, j);
    if asks != [] && TakesTurn(c.registry, asks[0].request, asks[0].excluded) {
      assert asks == [asks[0]];
      RoundRobin.TurnsExtend(c.registry, s.asks, asks[0], 0);
      RouteTurnsTo(c, j, s.shared, env);
    }
  }

  lemma RouteTurnsTo(c: Config, j: Job, s: Shared, e: Env)
    requires j.phase.Choosing? && |j.failed| < MaxAttempts(c.registry, j.visit.request)
    requires TakesTurn(c.registry, j.visit.request, NameSet(j.failed))
    ensures Select(c.registry, j.visit.request, NameSet(j.failed), s.turn).Ok?
    ensures TurnedTo(j, Advance(c, j, s, e).job)
         == Some(Select(c.registry, j.visit.request, NameSet(j.failed), s.turn).value.provider.name)
  {
    hide Select;
    TurnNeedsProvider(c.registry, j.visit.request, NameSet(j.failed), s.turn);
  }

  /** So in every run in which the round-robin decisions see the same n providers, k of them turn to each one floor or
      ceil of k/n times, whatever other requests and policies do in between. */
  lemma RunsAreBalanced(c: Config, start: real, s: State, es: seq<Descriptor>, p: Descriptor)
    requires Reachable(c, start, s)
    requires UniqueNames(es) && p in es && RoundRobin.AlwaysEligible(c.registry, s.asks, es)
    ensures var picked := RoundRobin.Turns(c.registry, s.asks, 0).0;
            && |picked| == s.shared.turn
            && s.shared.turn / |es| <= RoundRobin.Count(picked, p.name)
                 <= s.shared.turn / |es| + if s.shared.turn % |es| == 0 then 0 else 1
  {
    hide Leads;
    var actions :| Leads(c, Initial(start), actions, s);
    LeadsGoesRound(c, start, actions, s);
    TurnsCounted(c.registry, s.asks);
    RoundRobin.RoundRobinIsBalanced(c.registry, es, s.asks, 0, p);
  }

  lemma {:induction false} TurnsCounted(registry: seq<Descriptor>, asks: seq<RoundRobin.Ask>)
    ensures |RoundRobin.Turns(registry, asks, 0).0| == RoundRobin.Turns(registry, asks, 0).1
  {
    hide Select;
    hide TakesTurn;
    if asks != [] {
      TurnsCounted(registry, asks[..|asks| - 1]);
    }
  }
}
