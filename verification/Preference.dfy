/** The order in which a key-driven policy prefers providers: a stable sort of the eligible providers by the policy's
    key, ties in registry order.  It is defined here on its own, as an insertion sort; the fallback loop never
    sorts, it selects again and again. */
module Preference {
  import opened Contracts
  import opened Routing

  predicate KeyDriven(policy: Policy) {
    policy.LowestCost? || policy.LowestLatency? || policy.HighestQuality?
  }

  /** Smaller is better. */
  function Key(p: Descriptor, r: Request): real {
    match r.routing.policy
    case LowestCost => EstimateCost(p, r)
    case LowestLatency => p.nominalLatencyMs as real
    case HighestQuality => -p.quality
    case _ => 0.0
  }

  function Insert(p: Descriptor, ps: seq<Descriptor>, r: Request): (qs: seq<Descriptor>)
    ensures multiset(qs) == multiset(ps) + multiset{p}
  {
    if ps == [] then [p]
    else if Key(p, r) <= Key(ps[0], r) then [p] + ps
    else
      assert ps == [ps[0]] + ps[1..];
      [ps[0]] + Insert(p, ps[1..], r)
  }

  function StableSort(ps: seq<Descriptor>, r: Request): (qs: seq<Descriptor>)
    ensures multiset(qs) == multiset(ps)
  {
    if ps == [] then []
    else
      assert ps == [ps[0]] + ps[1..];
      Insert(ps[0], StableSort(ps[1..], r), r)
  }

  /** Where a provider stands in the registry. */
  function Position(registry: seq<Descriptor>, p: Descriptor): (i: nat)
    requires p in registry
    ensures i < |registry| && registry[i] == p
  {
    if registry[0] == p then 0 else 1 + Position(registry[1..], p)
  }

  /** p is to be tried before q. */
  predicate Before(registry: seq<Descriptor>, r: Request, p: Descriptor, q: Descriptor)
    requires p in registry && q in registry
  {
    Key(p, r) < Key(q, r) || (Key(p, r) == Key(q, r) && Position(registry, p) < Position(registry, q))
  }

  ghost predicate InRegistryOrder(registry: seq<Descriptor>, ps: seq<Descriptor>) {
    && (forall p :: p in ps ==> p in registry)
    && (forall i, j :: 0 <= i < j < |ps| ==> Position(registry, ps[i]) < Position(registry, ps[j]))
  }

  ghost predicate InPreferenceOrder(registry: seq<Descriptor>, r: Request, ps: seq<Descriptor>) {
    && (forall p :: p in ps ==> p in registry)
    && (forall i, j :: 0 <= i < j < |ps| ==> Before(registry, r, ps[i], ps[j]))
  }

  lemma SameElements(ps: seq<Descriptor>, qs: seq<Descriptor>)
    requires multiset(ps) == multiset(qs)
    ensures |ps| == |qs|
    ensures forall p :: p in ps <==> p in qs
  {
    assert |multiset(ps)| == |multiset(qs)|;
    forall p ensures p in ps <==> p in qs {
      assert p in ps <==> p in multiset(ps);
      assert p in qs <==> p in multiset(qs);
    }
  }

  lemma PrependKeepsOrder(registry: seq<Descriptor>, r: Request, p: Descriptor, ps: seq<Descriptor>)
    requires p in registry && InPreferenceOrder(registry, r, ps)
    requires forall q :: q in ps ==> Before(registry, r, p, q)
    ensures InPreferenceOrder(registry, r, [p] + ps)
  {
    hide Before;
    var qs := [p] + ps;
    forall i, j | 0 <= i < j < |qs| ensures Before(registry, r, qs[i], qs[j]) {
      assert qs[j] == ps[j - 1] && ps[j - 1] in ps;
      if i > 0 {
        assert qs[i] == ps[i - 1];
      }
    }
  }

  /** A provider whose key is not above the first one's, and that stands before all of them, comes first. */
  lemma ComesFirst(registry: seq<Descriptor>, r: Request, p: Descriptor, ps: seq<Descriptor>, q: Descriptor)
    requires p in registry && InPreferenceOrder(registry, r, ps) && q in ps
    requires Key(p, r) <= Key(ps[0], r) && Position(registry, p) < Position(registry, q)
    ensures Before(registry, r, p, q)
  {
    hide Key;
    hide Position;
    var j :| 0 <= j < |ps| && ps[j] == q;
    if j > 0 {
      assert Before(registry, r, ps[0], ps[j]);
    }
  }

  /** What comes before an inserted provider. */
  lemma FirstComesBefore(registry: seq<Descriptor>, r: Request, p: Descriptor, ps: seq<Descriptor>, q: Descriptor)
    requires p in registry && ps != [] && InPreferenceOrder(registry, r, ps)
    requires Key(p, r) > Key(ps[0], r) && (q in ps[1..] || q == p)
    ensures q in registry && ps[0] in registry && Before(registry, r, ps[0], q)
  {
    hide Key;
    hide Position;
    if q in ps[1..] {
      var j :| 1 <= j < |ps| && ps[j] == q;
      assert Before(registry, r, ps[0], ps[j]);
    }
  }

  lemma {:induction false} InsertKeepsOrder(registry: seq<Descriptor>, r: Request, p: Descriptor, ps: seq<Descriptor>)
    requires p in registry && InPreferenceOrder(registry, r, ps)
    requires forall q :: q in ps ==> Position(registry, p) < Position(registry, q)
    ensures InPreferenceOrder(registry, r, Insert(p, ps, r))
  {
    hide Before;
    hide Key;
    hide Position;
    if ps == [] {
    } else if Key(p, r) <= Key(ps[0], r) {
      forall q | q in ps ensures Before(registry, r, p, q) {
        ComesFirst(registry, r, p, ps, q);
      }
      PrependKeepsOrder(registry, r, p, ps);
    } else {
      var rest := Insert(p, ps[1..], r);
      InsertKeepsOrder(registry, r, p, ps[1..]);
      SameElements(rest, ps[1..] + [p]);
      forall q | q in rest ensures Before(registry, r, ps[0], q) {
        FirstComesBefore(registry, r, p, ps, q);
      }
      PrependKeepsOrder(registry, r, ps[0], rest);
    }
  }

  lemma {:induction false} StableSortOrders(registry: seq<Descriptor>, r: Request, ps: seq<Descriptor>)
    requires InRegistryOrder(registry, ps)
    ensures InPreferenceOrder(registry, r, StableSort(ps, r))
  {
    if ps != [] {
      var rest := StableSort(ps[1..], r);
      StableSortOrders(registry, r, ps[1..]);
      SameElements(rest, ps[1..]);
      forall q | q in rest
        ensures Position(registry, ps[0]) < Position(registry, q)
      {
        var m :| 1 <= m < |ps| && ps[m] == q;
      }
      InsertKeepsOrder(registry, r, ps[0], rest);
    }
  }

  lemma {:induction false} EligibleInRegistryOrder(registry: seq<Descriptor>, r: Request, excluded: set<string>)
    requires UniqueNames(registry)
    ensures InRegistryOrder(registry, Eligible(registry, r, excluded))
  {
    if registry != [] {
      var rest := registry[1..];
      var es := Eligible(rest, r, excluded);
      EligibleInRegistryOrder(rest, r, excluded);
      forall p | p in es
        ensures p in registry && Position(registry, p) == 1 + Position(rest, p)
      {
        var i := Position(rest, p);
        assert registry[i + 1] == p && registry[0].name != p.name;
      }
    }
  }

  /** What a key-driven policy picks comes before everything else that is eligible. */
  lemma ChoiceIsFirst(registry: seq<Descriptor>, r: Request, excluded: set<string>, turn: nat, q: Descriptor)
    requires UniqueNames(registry) && KeyDriven(r.routing.policy)
    requires q in Eligible(registry, r, excluded)
    ensures var es := Eligible(registry, r, excluded);
            var p := es[Choose(es, r, turn).value];
            p == q || Before(registry, r, p, q)
  {
    hide Choose;
    hide Key;
    hide UniqueNames;
    hide Satisfies;
    var es := Eligible(registry, r, excluded);
    EligibleInRegistryOrder(registry, r, excluded);
    var k := Choose(es, r, turn).value;
    var j :| 0 <= j < |es| && es[j] == q;
    KeyOfChoice(es, r, turn, j);
  }

  lemma KeyOfChoice(es: seq<Descriptor>, r: Request, turn: nat, j: nat)
    requires KeyDriven(r.routing.policy) && j < |es|
    ensures var k := Choose(es, r, turn).value;
            Key(es[k], r) < Key(es[j], r) || (Key(es[k], r) == Key(es[j], r) && k <= j)
  {
  }
}
