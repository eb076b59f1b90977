/** The adaptive policy (control_plane/routing.py:104-105, 160-174): the smallest weighted score of cost and latency
    relative to the dearest and slowest eligible provider, utilization, and missing quality. */
module AdaptivePolicy {
  import opened Contracts
  import opened Routing

  ghost predicate NonNegative(ms: seq<Metrics>) {
    forall i :: 0 <= i < |ms| ==> ms[i].cost >= 0.0 && ms[i].latency >= 0.0
  }

  function AdaptiveChoice(w: Weights, ms: seq<Metrics>): (k: nat)
    requires ms != []
    ensures k < |ms|
  {
    FirstMin(Scores(w, ms))
  }

  // ---------------------------------------------------------------------------------------------
  // Arithmetic
  // ---------------------------------------------------------------------------------------------

  lemma Quotient(x: real, m: real)
    requires m != 0.0
    ensures x / m * m == x
  {
  }

  lemma QuotientMonotone(x: real, y: real, m: real)
    requires m > 0.0 && x <= y
    ensures x / m <= y / m
    ensures x < y ==> x / m < y / m
  {
    var a, b := x / m, y / m;
    Quotient(x, m);
    Quotient(y, m);
    assert (b - a) * m == y - x;
  }

  lemma QuotientScales(x: real, m: real, f: real)
    requires m != 0.0 && f > 0.0
    ensures m * f != 0.0 && (x * f) / (m * f) == x / m
  {
    var relative := x / m;
    Quotient(x, m);
    assert m * f != 0.0;
    assert x * f == relative * (m * f);
  }

  lemma ProductSign(w: real, d: real)
    requires w >= 0.0 && d >= 0.0
    ensures w * d >= 0.0
    ensures w > 0.0 && d > 0.0 ==> w * d > 0.0
  {
  }

  /** The two products are named, which keeps the products themselves out of the reasoning that follows. */
  lemma ProductMonotone(w: real, a: real, b: real) returns (x: real, y: real)
    requires w >= 0.0 && a <= b
    ensures x == w * a && y == w * b && x <= y
    ensures w > 0.0 && a < b ==> x < y
  {
    x, y := w * a, w * b;
    var difference := w * (b - a);
    ProductSign(w, b - a);
    assert difference == y - x;
  }

  // ---------------------------------------------------------------------------------------------
  // Never dominated
  // ---------------------------------------------------------------------------------------------

  /** d is at least as good as m on everything, and strictly better where there is weight. */
  predicate Dominates(w: Weights, d: Metrics, m: Metrics) {
    && d.cost <= m.cost && d.latency <= m.latency && d.utilization <= m.utilization && d.quality >= m.quality
    && ( || (w.cost > 0.0 && d.cost < m.cost)
         || (w.latency > 0.0 && d.latency < m.latency)
         || (w.utilization > 0.0 && d.utilization < m.utilization)
         || (w.quality > 0.0 && d.quality > m.quality))
  }

  lemma SumsCompare(a: real, a': real, b: real, b': real, c: real, c': real, d: real, d': real)
    requires a <= a' && b <= b' && c <= c' && d <= d'
    requires a < a' || b < b' || c < c' || d < d'
    ensures a + b + c + d < a' + b' + c' + d'
  {
  }

  lemma ScoreIsSum(w: Weights, c: real, l: real, u: real, q: real, a: real, b: real, d: real, e: real)
    requires a == w.cost * c && b == w.latency * l && d == w.utilization * u && e == w.quality * (1.0 - q)
    ensures Score(w, c, l, u, q) == a + b + d + e
  {
  }

  lemma LowerScore(w: Weights, c: real, c': real, l: real, l': real, u: real, u': real, q: real, q': real)
    requires ValidWeights(w) && c <= c' && l <= l' && u <= u' && q >= q'
    requires || (w.cost > 0.0 && c < c') || (w.latency > 0.0 && l < l')
             || (w.utilization > 0.0 && u < u') || (w.quality > 0.0 && q > q')
    ensures Score(w, c, l, u, q) < Score(w, c', l', u', q')
  {
    hide Score;
    var a, a' := ProductMonotone(w.cost, c, c');
    var b, b' := ProductMonotone(w.latency, l, l');
    var d, d' := ProductMonotone(w.utilization, u, u');
    var e, e' := ProductMonotone(w.quality, 1.0 - q, 1.0 - q');
    SumsCompare(a, a', b, b', d, d', e, e');
    ScoreIsSum(w, c, l, u, q, a, b, d, e);
    ScoreIsSum(w, c', l', u', q', a', b', d', e');
  }

  /** The adaptive policy never picks a provider that another eligible one dominates. */
  lemma AdaptiveIsUndominated(w: Weights, ms: seq<Metrics>, d: nat)
    requires ms != [] && NonNegative(ms) && ValidWeights(w) && d < |ms|
    ensures !Dominates(w, ms[d], ms[AdaptiveChoice(w, ms)])
  {
    var k := AdaptiveChoice(w, ms);
    assert Scores(w, ms)[k] <= Scores(w, ms)[d];
    if Dominates(w, ms[d], ms[k]) {
      var costs, latencies := Relative(Costs(ms)), Relative(Latencies(ms));
      QuotientMonotone(ms[d].cost, ms[k].cost, Scale(Costs(ms)));
      QuotientMonotone(ms[d].latency, ms[k].latency, Scale(Latencies(ms)));
      LowerScore(w, costs[d], costs[k], latencies[d], latencies[k],
                 ms[d].utilization, ms[k].utilization, ms[d].quality, ms[k].quality);
    }
  }

  lemma EstimateIsNonNegative(p: Descriptor, r: Request)
    requires p.inputPrice >= 0.0 && p.outputPrice >= 0.0
    ensures EstimateCost(p, r) >= 0.0
  {
    ProductSign(PromptTokens(r.messages) as real, p.inputPrice);
    ProductSign(r.maxTokens as real, p.outputPrice);
  }

  lemma MetricsAreNonNegative(es: seq<Descriptor>, r: Request)
    requires forall p :: p in es ==> p.inputPrice >= 0.0 && p.outputPrice >= 0.0 && p.nominalLatencyMs >= 0
    ensures NonNegative(AllMetrics(es, r))
  {
    forall i | 0 <= i < |es|
      ensures AllMetrics(es, r)[i].cost >= 0.0 && AllMetrics(es, r)[i].latency >= 0.0
    {
      assert es[i] in es;
      EstimateIsNonNegative(es[i], r);
    }
  }

  lemma AdaptiveSelects(registry: seq<Descriptor>, r: Request, excluded: set<string>, turn: nat)
    requires r.model == "auto" && r.routing.policy.Adaptive? && Eligible(registry, r, excluded) != []
    ensures var es := Eligible(registry, r, excluded);
            var selected := Select(registry, r, excluded, turn);
            && selected.Ok?
            && selected.value.provider == es[AdaptiveChoice(r.routing.weights, AllMetrics(es, r))]
  {
    OwnExclusionsAreRedundant(registry, r, excluded);
  }

  /** So no adaptive routing decision picks a provider that another eligible one dominates. */
  lemma SelectedIsUndominated(
    registry: seq<Descriptor>, r: Request, excluded: set<string>, turn: nat, q: Descriptor)
    requires r.model == "auto" && r.routing.policy.Adaptive? && ValidWeights(r.routing.weights)
    requires forall p :: p in registry ==> p.inputPrice >= 0.0 && p.outputPrice >= 0.0 && p.nominalLatencyMs >= 0
    requires q in Eligible(registry, r, excluded)
    ensures var selected := Select(registry, r, excluded, turn);
            selected.Ok? &&
            !Dominates(r.routing.weights, MetricsOf(q, r), MetricsOf(selected.value.provider, r))
  {
    hide Select;
    var es := Eligible(registry, r, excluded);
    AdaptiveSelects(registry, r, excluded, turn);
    MetricsAreNonNegative(es, r);
    var d :| 0 <= d < |es| && es[d] == q;
    AdaptiveIsUndominated(r.routing.weights, AllMetrics(es, r), d);
  }

  // ---------------------------------------------------------------------------------------------
  // The balance between the metrics
  // ---------------------------------------------------------------------------------------------

  /** m is the largest of the values, or any unit at all when they are all zero. */
  ghost predicate LargestOrUnit(xs: seq<real>, m: real) {
    && (forall i :: 0 <= i < |xs| ==> 0.0 <= xs[i] <= m)
    && ((exists i :: 0 <= i < |xs| && xs[i] == m) || forall i :: 0 <= i < |xs| ==> xs[i] == 0.0)
  }

  /** What b has over a: each metric by its weight, cost and latency as shares of the largest ones. */
  function Advantage(w: Weights, a: Metrics, b: Metrics, dearest: real, slowest: real): real
    requires dearest != 0.0 && slowest != 0.0
  {
    w.cost * ((a.cost - b.cost) / dearest) + w.latency * ((a.latency - b.latency) / slowest)
    + w.utilization * (a.utilization - b.utilization) + w.quality * (b.quality - a.quality)
  }

  lemma RelativeToLargest(xs: seq<real>, m: real, i: nat)
    requires LargestOrUnit(xs, m) && m > 0.0 && i < |xs|
    ensures Relative(xs)[i] == xs[i] / m
  {
    var k := FirstMax(xs);
    if exists j :: 0 <= j < |xs| && xs[j] == m {
      assert xs[k] == m;
    } else {
      assert xs[i] == 0.0 && xs[k] == 0.0;
      Quotient(0.0, m);
    }
  }

  lemma QuotientDifference(x: real, y: real, m: real)
    requires m != 0.0
    ensures x / m - y / m == (x - y) / m
  {
    Quotient(x, m);
    Quotient(y, m);
    assert (x / m - y / m) * m == x - y;
  }

  lemma ProductDifference(w: real, x: real, y: real)
    ensures w * x - w * y == w * (x - y)
  {
  }

  lemma ScoreDifference(
    w: Weights, c: real, c': real, l: real, l': real, u: real, u': real, q: real, q': real)
    ensures Score(w, c, l, u, q) - Score(w, c', l', u', q')
         == w.cost * (c - c') + w.latency * (l - l') + w.utilization * (u - u') + w.quality * (q' - q)
  {
    ProductDifference(w.cost, c, c');
    ProductDifference(w.latency, l, l');
    ProductDifference(w.utilization, u, u');
    ProductDifference(w.quality, 1.0 - q, 1.0 - q');
    assert (1.0 - q) - (1.0 - q') == q' - q;
  }

  lemma ScoresDifferBy(w: Weights, ms: seq<Metrics>, dearest: real, slowest: real, i: nat, j: nat)
    requires LargestOrUnit(Costs(ms), dearest) && LargestOrUnit(Latencies(ms), slowest)
    requires dearest > 0.0 && slowest > 0.0 && i < |ms| && j < |ms|
    ensures Scores(w, ms)[i] - Scores(w, ms)[j] == Advantage(w, ms[i], ms[j], dearest, slowest)
  {
    hide Score;
    hide LargestOrUnit;
    hide Relative;
    var costs, latencies := Relative(Costs(ms)), Relative(Latencies(ms));
    RelativeToLargest(Costs(ms), dearest, i);
    RelativeToLargest(Costs(ms), dearest, j);
    RelativeToLargest(Latencies(ms), slowest, i);
    RelativeToLargest(Latencies(ms), slowest, j);
    QuotientDifference(ms[i].cost, ms[j].cost, dearest);
    QuotientDifference(ms[i].latency, ms[j].latency, slowest);
    ScoreDifference(w, costs[i], costs[j], latencies[i], latencies[j],
                    ms[i].utilization, ms[j].utilization, ms[i].quality, ms[j].quality);
  }

  /** How the metrics are weighed against each other, exactly: the choice is the first candidate over which no other
      has an advantage, and each earlier one is at a real disadvantage. */
  lemma AdaptiveWeighsMetrics(w: Weights, ms: seq<Metrics>, dearest: real, slowest: real, k: nat)
    requires LargestOrUnit(Costs(ms), dearest) && LargestOrUnit(Latencies(ms), slowest)
    requires dearest > 0.0 && slowest > 0.0 && k < |ms|
    ensures AdaptiveChoice(w, ms) == k <==>
              && (forall i :: 0 <= i < |ms| ==> Advantage(w, ms[k], ms[i], dearest, slowest) <= 0.0)
              && (forall i :: 0 <= i < k ==> Advantage(w, ms[k], ms[i], dearest, slowest) < 0.0)
  {
    hide Advantage;
    hide Scores;
    hide LargestOrUnit;
    forall i | 0 <= i < |ms|
      ensures Scores(w, ms)[k] - Scores(w, ms)[i] == Advantage(w, ms[k], ms[i], dearest, slowest)
    {
      ScoresDifferBy(w, ms, dearest, slowest, k, i);
    }
    FirstMinExactly(Scores(w, ms), k);
  }

  lemma FirstMinExactly(keys: seq<real>, k: nat)
    requires k < |keys|
    ensures FirstMin(keys) == k <==>
              (forall i :: 0 <= i < |keys| ==> keys[k] - keys[i] <= 0.0) &&
              (forall i :: 0 <= i < k ==> keys[k] - keys[i] < 0.0)
  {
    var m := FirstMin(keys);
    assert keys[m] <= keys[k];
  }

  /** What b has over a for a request, on the fields of the providers. */
  function AdvantageFor(r: Request, a: Descriptor, b: Descriptor, dearest: real, slowest: real): real
    requires dearest != 0.0 && slowest != 0.0
  {
    var w := r.routing.weights;
    w.cost * ((EstimateCost(a, r) - EstimateCost(b, r)) / dearest)
    + w.latency * ((a.nominalLatencyMs as real - b.nominalLatencyMs as real) / slowest)
    + w.utilization * (a.utilization - b.utilization) + w.quality * (b.quality - a.quality)
  }

  /** So an adaptive routing decision takes the first eligible provider over which no other has an advantage. */
  lemma SelectedWeighsMetrics(
    registry: seq<Descriptor>, r: Request, excluded: set<string>, turn: nat, dearest: real, slowest: real)
    returns (k: nat)
    requires r.model == "auto" && r.routing.policy.Adaptive? && Eligible(registry, r, excluded) != []
    requires LargestOrUnit(EstimatedCosts(Eligible(registry, r, excluded), r), dearest) && dearest > 0.0
    requires LargestOrUnit(NominalLatencies(Eligible(registry, r, excluded)), slowest) && slowest > 0.0
    ensures var es := Eligible(registry, r, excluded);
            var selected := Select(registry, r, excluded, turn);
            && k < |es| && selected.Ok? && selected.value.provider == es[k]
            && (forall i :: 0 <= i < |es| ==> AdvantageFor(r, es[k], es[i], dearest, slowest) <= 0.0)
            && (forall i :: 0 <= i < k ==> AdvantageFor(r, es[k], es[i], dearest, slowest) < 0.0)
  {
    hide Select;
    hide Eligible;
    hide LargestOrUnit;
    hide Advantage;
    hide AdvantageFor;
    hide EstimateCost;
    var es := Eligible(registry, r, excluded);
    var ms := AllMetrics(es, r);
    AdaptiveSelects(registry, r, excluded, turn);
    assert Costs(ms) == EstimatedCosts(es, r) && Latencies(ms) == NominalLatencies(es);
    k := AdaptiveChoice(r.routing.weights, ms);
    AdaptiveWeighsMetrics(r.routing.weights, ms, dearest, slowest, k);
    forall i | 0 <= i < |es|
      ensures AdvantageFor(r, es[k], es[i], dearest, slowest)
           == Advantage(r.routing.weights, ms[k], ms[i], dearest, slowest)
    {
      SameAdvantage(r, es[k], es[i], dearest, slowest);
    }
  }

  lemma SameAdvantage(r: Request, a: Descriptor, b: Descriptor, dearest: real, slowest: real)
    requires dearest != 0.0 && slowest != 0.0
    ensures AdvantageFor(r, a, b, dearest, slowest)
         == Advantage(r.routing.weights, MetricsOf(a, r), MetricsOf(b, r), dearest, slowest)
  {
    hide EstimateCost;
  }

  // ---------------------------------------------------------------------------------------------
  // Free of units
  // ---------------------------------------------------------------------------------------------

  function ScaleCosts(ms: seq<Metrics>, f: real): (r: seq<Metrics>)
    ensures |r| == |ms|
  {
    seq(|ms|, i requires 0 <= i < |ms| => ms[i].(cost := ms[i].cost * f))
  }

  function ScaleLatencies(ms: seq<Metrics>, f: real): (r: seq<Metrics>)
    ensures |r| == |ms|
  {
    seq(|ms|, i requires 0 <= i < |ms| => ms[i].(latency := ms[i].latency * f))
  }

  function ScaleWeights(w: Weights, f: real): Weights {
    Weights(w.cost * f, w.latency * f, w.utilization * f, w.quality * f)
  }

  predicate InUnitAt(xs: seq<real>, ys: seq<real>, f: real, i: nat)
    requires i < |xs| == |ys|
  {
    ys[i] == xs[i] * f
  }

  /** ys is xs in another unit. */
  ghost predicate InUnit(xs: seq<real>, ys: seq<real>, f: real) {
    && |xs| == |ys|
    && forall i :: 0 <= i < |xs| ==> InUnitAt(xs, ys, f, i)
  }

  lemma LargestScales(a: real, b: real, a': real, b': real, f: real)
    requires f > 0.0 && a' == a * f && b' == b * f && b <= a && a' <= b'
    ensures b' == a * f
  {
    var _, _ := ProductMonotone(f, b, a);
  }

  lemma RelativeScales(x: real, x': real, largest: real, largest': real, f: real)
    requires f > 0.0 && 0.0 <= x <= largest
    requires x' == x * f && largest' == largest * f
    ensures x' / OrOne(largest') == x / OrOne(largest)
  {
    if largest != 0.0 {
      QuotientScales(x, largest, f);
    }
  }

  lemma DividedScalesAt(xs: seq<real>, ys: seq<real>, largest: real, largest': real, f: real, i: nat)
    requires f > 0.0 && |xs| == |ys| && i < |xs| && InUnitAt(xs, ys, f, i) && largest' == largest * f
    requires 0.0 <= xs[i] <= largest
    ensures ys[i] / OrOne(largest') == xs[i] / OrOne(largest)
  {
    RelativeScales(xs[i], ys[i], largest, largest', f);
  }

  lemma DividedScales(xs: seq<real>, ys: seq<real>, largest: real, largest': real, f: real)
    requires f > 0.0 && InUnit(xs, ys, f) && largest' == largest * f
    requires forall j :: 0 <= j < |xs| ==> 0.0 <= xs[j] <= largest
    ensures Divided(ys, OrOne(largest')) == Divided(xs, OrOne(largest))
  {
    hide OrOne;
    hide Divided;
    hide InUnitAt;
    forall i | 0 <= i < |xs|
      ensures Divided(ys, OrOne(largest'))[i] == Divided(xs, OrOne(largest))[i]
    {
      assert InUnitAt(xs, ys, f, i);
      DividedScalesAt(xs, ys, largest, largest', f, i);
    }
  }

  lemma LargestInUnit(xs: seq<real>, ys: seq<real>, f: real, a: nat, b: nat)
    requires f > 0.0 && InUnit(xs, ys, f) && a < |xs| && b < |ys|
    requires xs[b] <= xs[a] && ys[a] <= ys[b]
    ensures ys[b] == xs[a] * f
  {
    assert InUnitAt(xs, ys, f, a) && InUnitAt(xs, ys, f, b);
    LargestScales(xs[a], xs[b], ys[a], ys[b], f);
  }

  /** Values relative to the largest one, or to 1 when all are zero, do not depend on the unit. */
  lemma RelativeIsScaleFree(xs: seq<real>, ys: seq<real>, f: real)
    requires xs != [] && f > 0.0 && InUnit(xs, ys, f)
    requires forall j :: 0 <= j < |xs| ==> xs[j] >= 0.0
    ensures Relative(ys) == Relative(xs)
  {
    LargestInUnit(xs, ys, f, FirstMax(xs), FirstMax(ys));
    DividedScales(xs, ys, xs[FirstMax(xs)], ys[FirstMax(ys)], f);
  }

  lemma SameScores(w: Weights, one: seq<Metrics>, two: seq<Metrics>)
    requires one != [] && |one| == |two|
    requires Relative(Costs(one)) == Relative(Costs(two)) && Relative(Latencies(one)) == Relative(Latencies(two))
    requires forall i :: 0 <= i < |one| ==>
               one[i].utilization == two[i].utilization && one[i].quality == two[i].quality
    ensures AdaptiveChoice(w, one) == AdaptiveChoice(w, two)
  {
    assert Scores(w, one) == Scores(w, two);
  }

  /** Measuring all costs in another unit never changes the adaptive choice. */
  lemma AdaptiveIgnoresCostUnit(w: Weights, ms: seq<Metrics>, f: real)
    requires ms != [] && NonNegative(ms) && f > 0.0
    ensures AdaptiveChoice(w, ScaleCosts(ms, f)) == AdaptiveChoice(w, ms)
  {
    var scaled := ScaleCosts(ms, f);
    assert Latencies(scaled) == Latencies(ms);
    RelativeIsScaleFree(Costs(ms), Costs(scaled), f);
    SameScores(w, scaled, ms);
  }

  /** Nor does measuring all latencies in another unit. */
  lemma AdaptiveIgnoresLatencyUnit(w: Weights, ms: seq<Metrics>, f: real)
    requires ms != [] && NonNegative(ms) && f > 0.0
    ensures AdaptiveChoice(w, ScaleLatencies(ms, f)) == AdaptiveChoice(w, ms)
  {
    var scaled := ScaleLatencies(ms, f);
    assert Costs(scaled) == Costs(ms);
    RelativeIsScaleFree(Latencies(ms), Latencies(scaled), f);
    SameScores(w, scaled, ms);
  }

  lemma SameOrderSameMin(one: seq<real>, two: seq<real>)
    requires one != [] && |one| == |two|
    requires forall i, j :: 0 <= i < |one| && 0 <= j < |one| ==> (one[i] <= one[j] <==> two[i] <= two[j])
    ensures FirstMin(one) == FirstMin(two)
  {
    var a, b := FirstMin(one), FirstMin(two);
    assert one[a] <= one[b] && two[b] <= two[a];
    assert two[a] <= two[b] && one[b] <= one[a];
  }

  lemma OrderScales(x: real, y: real, f: real)
    requires f > 0.0
    ensures x <= y <==> x * f <= y * f
  {
    if x <= y {
      var _, _ := ProductMonotone(f, x, y);
    } else {
      var _, _ := ProductMonotone(f, y, x);
    }
  }

  lemma ScoreScales(w: Weights, c: real, l: real, u: real, q: real, f: real)
    ensures Score(ScaleWeights(w, f), c, l, u, q) == Score(w, c, l, u, q) * f
  {
    var v := 1.0 - q;
    assert Score(w, c, l, u, q) == w.cost * c + w.latency * l + w.utilization * u + w.quality * v;
    assert w.cost * f * c == w.cost * c * f;
    assert w.latency * f * l == w.latency * l * f;
    assert w.utilization * f * u == w.utilization * u * f;
    assert w.quality * f * v == w.quality * v * f;
  }

  lemma ScoresScale(w: Weights, costs: seq<real>, latencies: seq<real>, ms: seq<Metrics>, f: real)
    requires |costs| == |latencies| == |ms| && ms != [] && f > 0.0
    ensures FirstMin(WeightedScores(ScaleWeights(w, f), costs, latencies, ms))
         == FirstMin(WeightedScores(w, costs, latencies, ms))
  {
    var one, two := WeightedScores(w, costs, latencies, ms), WeightedScores(ScaleWeights(w, f), costs, latencies, ms);
    forall i, j | 0 <= i < |ms| && 0 <= j < |ms|
      ensures one[i] <= one[j] <==> two[i] <= two[j]
    {
      ScoreScales(w, costs[i], latencies[i], ms[i].utilization, ms[i].quality, f);
      ScoreScales(w, costs[j], latencies[j], ms[j].utilization, ms[j].quality, f);
      OrderScales(one[i], one[j], f);
    }
    SameOrderSameMin(one, two);
  }

  /** Only the ratios of the weights matter. */
  lemma AdaptiveIgnoresWeightUnit(w: Weights, ms: seq<Metrics>, f: real)
    requires ms != [] && f > 0.0
    ensures AdaptiveChoice(ScaleWeights(w, f), ms) == AdaptiveChoice(w, ms)
  {
    ScoresScale(w, Relative(Costs(ms)), Relative(Latencies(ms)), ms, f);
  }
}
