/** The round-robin policy over whole runs (control_plane/routing.py:84-88). */
module RoundRobin {
  import opened Contracts
  import opened Routing

  datatype Ask = Ask(request: Request, excluded: set<string>)

  /** The providers that the round-robin selections of a run pick, among selections under any policy, and the
      index afterwards. */
  function Turns(registry: seq<Descriptor>, asks: seq<Ask>, index: nat): (seq<string>, nat) {
    if asks == [] then
      ([], index)
    else
      var last := |asks| - 1;
      var (picked, i) := Turns(registry, asks[..last], index);
      var a := asks[last];
      if TakesTurn(registry, a.request, a.excluded)
      then (picked + [Select(registry, a.request, a.excluded, i).value.provider.name], i + 1)
      else (picked, i)
  }

  function Count(xs: seq<string>, x: string): nat {
    if xs == [] then 0
    else Count(xs[..|xs| - 1], x) + if xs[|xs| - 1] == x then 1 else 0
  }

  /** Every round-robin selection of the run finds exactly these providers eligible. */
  ghost predicate AlwaysEligible(registry: seq<Descriptor>, asks: seq<Ask>, es: seq<Descriptor>) {
    forall a :: a in asks && TakesTurn(registry, a.request, a.excluded) ==>
                  Eligible(registry, a.request, a.excluded) == es
  }

  // ---------------------------------------------------------------------------------------------
  // Going round
  // ---------------------------------------------------------------------------------------------

  lemma DivModUnique(k: nat, n: nat, q: nat, r: nat)
    requires n > 0 && k == q * n + r && r < n
    ensures k / n == q && k % n == r
  {
    var q', r' := k / n, k % n;
    assert (q - q') * n == r' - r;
    if q > q' {
      MultipleIsLarge(q - q', n);
    } else if q' > q {
      MultipleIsLarge(q' - q, n);
    }
  }

  lemma MultipleIsLarge(a: nat, n: nat)
    requires a >= 1
    ensures a * n >= n
  {
  }

  lemma NextIndex(i: nat, n: nat)
    requires n > 0
    ensures (i + 1) % n == if i % n + 1 == n then 0 else i % n + 1
  {
    var q, r := i / n, i % n;
    if r + 1 == n {
      assert i + 1 == (q + 1) * n;
      DivModUnique(i + 1, n, q + 1, 0);
    } else {
      DivModUnique(i + 1, n, q, r + 1);
    }
  }

  /** The position reached from the starting position after r turns of a round. */
  function Cursor(start: nat, r: nat, n: nat): nat
    requires start < n && r < n
  {
    if start + r < n then start + r else start + r - n
  }

  /** How often position j has been met after q rounds and r turns. */
  function Met(j: nat, start: nat, q: nat, r: nat, n: nat): nat
    requires j < n && start < n
  {
    var offset := if j >= start then j - start else j - start + n;
    q + if offset < r then 1 else 0
  }

  lemma OneMoreTurn(start: nat, q: nat, r: nat, n: nat)
    requires start < n && r < n
    ensures var (q', r') := if r + 1 == n then (q + 1, 0) else (q, r + 1);
            var p := Cursor(start, r, n);
            && Cursor(start, r', n) == (if p + 1 == n then 0 else p + 1)
            && q' * n + r' == q * n + r + 1
            && (forall j :: 0 <= j < n ==> Met(j, start, q', r', n) == Met(j, start, q, r, n) + if j == p then 1 else 0)
  {
  }

  lemma PickedProvider(registry: seq<Descriptor>, es: seq<Descriptor>, a: Ask, index: nat)
    requires TakesTurn(registry, a.request, a.excluded) && Eligible(registry, a.request, a.excluded) == es
    ensures es != []
    ensures Select(registry, a.request, a.excluded, index).value.provider.name == es[index % |es|].name
  {
    OwnExclusionsAreRedundant(registry, a.request, a.excluded);
  }

  lemma CountAppend(xs: seq<string>, x: string, y: string)
    ensures Count(xs + [y], x) == Count(xs, x) + if x == y then 1 else 0
  {
    assert (xs + [y])[..|xs|] == xs;
  }

  /** q whole rounds and r turns have been picked from es, starting at the start position. */
  ghost predicate GoneRound(es: seq<Descriptor>, start: nat, picked: seq<string>, index: nat, q: nat, r: nat)
    requires start < |es|
  {
    && r < |es|
    && |picked| == q * |es| + r
    && index % |es| == Cursor(start, r, |es|)
    && forall j :: 0 <= j < |es| ==> Count(picked, es[j].name) == Met(j, start, q, r, |es|)
  }

  lemma TurnGoesRound(es: seq<Descriptor>, start: nat, picked: seq<string>, index: nat, q: nat, r: nat)
    returns (q': nat, r': nat)
    requires start < |es| && UniqueNames(es) && GoneRound(es, start, picked, index, q, r)
    ensures GoneRound(es, start, picked + [es[index % |es|].name], index + 1, q', r')
  {
    var p := index % |es|;
    NextIndex(index, |es|);
    OneMoreTurn(start, q, r, |es|);
    q', r' := if r + 1 == |es| then q + 1 else q, if r + 1 == |es| then 0 else r + 1;
    forall j | 0 <= j < |es|
      ensures Count(picked + [es[p].name], es[j].name) == Met(j, start, q', r', |es|)
    {
      CountAppend(picked, es[j].name, es[p].name);
    }
  }

  /** What one selection more adds to the turns. */
  lemma TurnsExtend(registry: seq<Descriptor>, asks: seq<Ask>, a: Ask, index: nat)
    ensures var (picked, i) := Turns(registry, asks, index);
            Turns(registry, asks + [a], index)
            == if TakesTurn(registry, a.request, a.excluded)
               then (picked + [Select(registry, a.request, a.excluded, i).value.provider.name], i + 1)
               else (picked, i)
  {
    hide Select;
    assert (asks + [a])[..|asks|] == asks;
  }

  /** One selection more, under any policy. */
  lemma SelectionGoesRound(
    registry: seq<Descriptor>, es: seq<Descriptor>, asks: seq<Ask>, a: Ask, index: nat, q: nat, r: nat)
    returns (q': nat, r': nat)
    requires es != [] && UniqueNames(es)
    requires TakesTurn(registry, a.request, a.excluded) ==> Eligible(registry, a.request, a.excluded) == es
    requires GoneRound(es, index % |es|, Turns(registry, asks, index).0, Turns(registry, asks, index).1, q, r)
    ensures GoneRound(es, index % |es|, Turns(registry, asks + [a], index).0, Turns(registry, asks + [a], index).1,
                      q', r')
  {
    hide Select;
    hide GoneRound;
    hide TakesTurn;
    hide UniqueNames;
    hide Turns;
    var (picked, i) := Turns(registry, asks, index);
    TurnsExtend(registry, asks, a, index);
    if TakesTurn(registry, a.request, a.excluded) {
      PickedProvider(registry, es, a, i);
      q', r' := TurnGoesRound(es, index % |es|, picked, i, q, r);
    } else {
      q', r' := q, r;
    }
  }

  /** Exactly those met in the last, unfinished round are one ahead. */
  lemma {:induction false} TurnsGoRound(registry: seq<Descriptor>, es: seq<Descriptor>, asks: seq<Ask>, index: nat)
    returns (q: nat, r: nat)
    requires es != [] && UniqueNames(es) && AlwaysEligible(registry, asks, es)
    ensures GoneRound(es, index % |es|, Turns(registry, asks, index).0, Turns(registry, asks, index).1, q, r)
  {
    hide Select;
    if asks == [] {
      q, r := 0, 0;
    } else {
      var before, a := asks[..|asks| - 1], asks[|asks| - 1];
      assert a in asks && before + [a] == asks;
      q, r := TurnsGoRound(registry, es, before, index);
      q, r := SelectionGoesRound(registry, es, before, a, index, q, r);
    }
  }

  /** In any stretch where the round-robin selections see the same n eligible providers, k of them pick each
      provider k/n times rounded down or up, whatever is selected under other policies in between. */
  lemma RoundRobinIsBalanced(registry: seq<Descriptor>, es: seq<Descriptor>, asks: seq<Ask>, index: nat, p: Descriptor)
    requires UniqueNames(es) && p in es && AlwaysEligible(registry, asks, es)
    ensures var picked := Turns(registry, asks, index).0;
            var k, n := |picked|, |es|;
            k / n <= Count(picked, p.name) <= k / n + if k % n == 0 then 0 else 1
  {
    var q, r := TurnsGoRound(registry, es, asks, index);
    DivModUnique(|Turns(registry, asks, index).0|, |es|, q, r);
    var j :| 0 <= j < |es| && es[j] == p;
  }
}
