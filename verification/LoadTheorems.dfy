/** What the summary of a load run says about its samples (control_plane/evaluation/load.py:57-104), counted in the list
    of samples itself. */
module LoadTheorems {
  import opened Contracts
  import opened Percentiles
  import opened LoadReport

  // ---------------------------------------------------------------------------------------------
  // Sample by sample
  // ---------------------------------------------------------------------------------------------

  /** The summary of no samples. */
  lemma SummaryOfNothing(profile: string, repetition: int, concurrency: int, duration: real)
    ensures Summarize(profile, repetition, concurrency, duration, [])
         == LoadRun(profile, repetition, concurrency, 0, 0, 0, 0.0, duration, 0.0,
                    Latency(0.0, 0.0, 0.0, 0.0), 0.0, map[], 0)
  {
    EmptyPercentile(0.50);
    EmptyPercentile(0.95);
    EmptyPercentile(0.99);
    assert Latencies([]) == [];
  }

  /** What one sample more changes: a sample with status 200 is one success more and adds its cost, its fallbacks and
      one answer of its provider; every other is one failure more and adds nothing, nor does it change a latency. */
  lemma SummaryOfOneMore(
    profile: string, repetition: int, concurrency: int, duration: real, samples: seq<Sample>, more: Sample,
    name: string)
    ensures var before := Summarize(profile, repetition, concurrency, duration, samples);
            var after := Summarize(profile, repetition, concurrency, duration, samples + [more]);
            && after.requests == before.requests + 1
            && after.duration == before.duration == duration
            && (more.statusCode == 200 ==>
                  && after.successful == before.successful + 1 && after.failed == before.failed
                  && after.cost == before.cost + more.cost
                  && after.fallbacks == before.fallbacks + more.fallbacks
                  && CountOf(after.providers, name)
                       == CountOf(before.providers, name) + (if more.provider == Some(name) then 1 else 0)
                  && (name in after.providers <==> name in before.providers || more.provider == Some(name)))
            && (more.statusCode != 200 ==>
                  && after.successful == before.successful && after.failed == before.failed + 1
                  && after.cost == before.cost && after.fallbacks == before.fallbacks
                  && after.providers == before.providers && after.latency == before.latency)
  {
    hide LatencyOf;
    hide Quotient;
    assert (samples + [more])[..|samples|] == samples;
    var successes := Successes(samples);
    if more.statusCode == 200 {
      assert (successes + [more])[..|successes|] == successes;
    } else {
      assert successes + [] == successes;
    }
  }

  /** The rates: what they are multiplied back, and zero where there is nothing to divide by. */
  lemma SummaryRates(profile: string, repetition: int, concurrency: int, duration: real, samples: seq<Sample>)
    ensures var run := Summarize(profile, repetition, concurrency, duration, samples);
            && run.profile == profile && run.repetition == repetition && run.concurrency == concurrency
            && (samples != [] ==> run.successRate * run.requests as real == run.successful as real)
            && (samples == [] ==> run.successRate == 0.0)
            && (duration != 0.0 ==> run.throughput * duration == run.requests as real)
            && (duration == 0.0 ==> run.throughput == 0.0)
  {
    hide LatencyOf;
    hide Successes;
    hide Distribution;
  }

  // ---------------------------------------------------------------------------------------------
  // The latencies
  // ---------------------------------------------------------------------------------------------

  function CountSamples(samples: seq<Sample>, counts: Sample -> bool): nat {
    if samples == [] then 0
    else CountSamples(samples[..|samples| - 1], counts) + if counts(samples[|samples| - 1]) then 1 else 0
  }

  const ANSWERED: Sample -> bool := (s: Sample) => s.statusCode == 200

  function AnsweredWithin(v: real): Sample -> bool {
    (s: Sample) => s.statusCode == 200 && s.latencyMs <= v
  }

  function AnsweredBelow(v: real): Sample -> bool {
    (s: Sample) => s.statusCode == 200 && s.latencyMs < v
  }

  ghost predicate AnsweredAt(samples: seq<Sample>, v: real) {
    exists i :: 0 <= i < |samples| && samples[i].statusCode == 200 && samples[i].latencyMs == v
  }

  /** v is the latency of an answer, at least part/whole of all answers took at most v, and fewer took less. */
  ghost predicate SplitsAnswers(samples: seq<Sample>, part: nat, whole: nat, v: real) {
    && AnsweredAt(samples, v)
    && whole * CountSamples(samples, AnsweredWithin(v)) >= part * CountSamples(samples, ANSWERED)
    && whole * CountSamples(samples, AnsweredBelow(v)) < part * CountSamples(samples, ANSWERED)
  }

  lemma {:induction false} CountOneMore(xs: seq<real>, x: real, counts: real -> bool)
    ensures Count(xs + [x], counts) == Count(xs, counts) + if counts(x) then 1 else 0
  {
    if xs == [] {
      assert [] + [x] == [x] && [x][1..] == [];
    } else {
      CountOneMore(xs[1..], x, counts);
      assert (xs + [x])[1..] == xs[1..] + [x];
    }
  }

  /** Counting among the latencies of the successes is counting among the answered samples. */
  lemma {:induction false} CountsAgree(samples: seq<Sample>, v: real)
    ensures var latencies := Latencies(Successes(samples));
            && |latencies| == CountSamples(samples, ANSWERED)
            && Count(latencies, AtMost(v)) == CountSamples(samples, AnsweredWithin(v))
            && Count(latencies, Below(v)) == CountSamples(samples, AnsweredBelow(v))
            && (v in latencies <==> AnsweredAt(samples, v))
  {
    if samples != [] {
      var front, last := samples[..|samples| - 1], samples[|samples| - 1];
      var before := Latencies(Successes(front));
      CountsAgree(front, v);
      AnsweredAtOneMore(front, last, v);
      assert samples == front + [last];
      if last.statusCode == 200 {
        assert Latencies(Successes(samples)) == before + [last.latencyMs];
        CountOneMore(before, last.latencyMs, AtMost(v));
        CountOneMore(before, last.latencyMs, Below(v));
      } else {
        assert Successes(samples) == Successes(front);
      }
    }
  }

  lemma AnsweredAtOneMore(samples: seq<Sample>, more: Sample, v: real)
    ensures AnsweredAt(samples + [more], v) <==>
              AnsweredAt(samples, v) || (more.statusCode == 200 && more.latencyMs == v)
  {
    var longer := samples + [more];
    if AnsweredAt(samples, v) {
      var i :| 0 <= i < |samples| && samples[i].statusCode == 200 && samples[i].latencyMs == v;
      assert longer[i] == samples[i];
    }
    if more.statusCode == 200 && more.latencyMs == v {
      assert longer[|samples|] == more;
    }
    if AnsweredAt(longer, v) && !(more.statusCode == 200 && more.latencyMs == v) {
      var i :| 0 <= i < |longer| && longer[i].statusCode == 200 && longer[i].latencyMs == v;
      assert samples[i] == longer[i];
    }
  }

  /** Comparing a count with the rank of a fraction is comparing it with the fraction. */
  lemma RankOfFraction(n: nat, part: nat, whole: nat, quantile: real, count: nat)
    requires n > 0 && 0 < part <= whole && quantile == part as real / whole as real
    ensures count >= Rank(n, quantile) <==> whole * count >= part * n
    ensures count < Rank(n, quantile) <==> whole * count < part * n
  {
    QuantileInRange(part, whole, quantile);
    RankInRange(n, quantile);
    CeilCompares(quantile * n as real, count);
    FractionCompares(n, part, whole, quantile, count);
  }

  lemma QuantileInRange(part: nat, whole: nat, quantile: real)
    requires 0 < part <= whole && quantile == part as real / whole as real
    ensures 0.0 < quantile <= 1.0 && quantile * whole as real == part as real
  {
    var p, w := part as real, whole as real;
    assert quantile * w == p;
    if quantile <= 0.0 {
      ProductSign(-quantile, w);
    }
    if quantile > 1.0 {
      ProductSign(quantile - 1.0, w);
    }
  }

  lemma CeilCompares(x: real, count: nat)
    ensures count >= Ceil(x) <==> count as real >= x
  {
  }

  lemma FractionCompares(n: nat, part: nat, whole: nat, quantile: real, count: nat)
    requires whole > 0 && quantile * whole as real == part as real
    ensures count as real >= quantile * n as real <==> whole * count >= part * n
  {
    var w, gap := whole as real, count as real - quantile * n as real;
    assert gap * w == count as real * w - quantile * w * n as real;
    assert (whole * count) as real == count as real * w;
    assert (part * n) as real == part as real * n as real;
    if gap >= 0.0 {
      ProductSign(gap, w);
    } else {
      ProductSign(-gap, w);
      assert (-gap) * w == -(gap * w);
    }
  }

  lemma QuantileSplits(samples: seq<Sample>, part: nat, whole: nat, quantile: real, v: real)
    requires CountSamples(samples, ANSWERED) > 0
    requires 0 < part <= whole && quantile == part as real / whole as real
    ensures PercentileOf(Latencies(Successes(samples)), quantile) == v <==> SplitsAnswers(samples, part, whole, v)
  {
    hide Percentile;
    hide Rank;
    hide Successes;
    hide CountSamples;
    hide AnsweredAt;
    var latencies := Latencies(Successes(samples));
    var n := CountSamples(samples, ANSWERED);
    CountsAgree(samples, v);
    QuantileInRange(part, whole, quantile);
    PercentileIsMember(latencies, quantile);
    PercentileIsNearestRank(latencies, quantile, v);
    RankOfFraction(n, part, whole, quantile, CountSamples(samples, AnsweredWithin(v)));
    RankOfFraction(n, part, whole, quantile, CountSamples(samples, AnsweredBelow(v)));
  }

  /** What the reported latencies are: p50, p95 and p99 are the latencies that split the answered samples at 1/2, 19/20
      and 99/100, and max is the longest one; without an answer all are zero. */
  lemma LatenciesMean(
    profile: string, repetition: int, concurrency: int, duration: real, samples: seq<Sample>, v: real)
    ensures var latency := Summarize(profile, repetition, concurrency, duration, samples).latency;
            if CountSamples(samples, ANSWERED) == 0 then latency == Latency(0.0, 0.0, 0.0, 0.0)
            else
              && (latency.p50 == v <==> SplitsAnswers(samples, 1, 2, v))
              && (latency.p95 == v <==> SplitsAnswers(samples, 19, 20, v))
              && (latency.p99 == v <==> SplitsAnswers(samples, 99, 100, v))
              && AnsweredAt(samples, latency.max)
              && (AnsweredAt(samples, v) ==> v <= latency.max)
  {
    hide Percentile;
    hide Successes;
    hide CountSamples;
    hide AnsweredAt;
    hide SplitsAnswers;
    hide Distribution;
    hide PercentileOf;
    var latencies := Latencies(Successes(samples));
    CountsAgree(samples, v);
    if CountSamples(samples, ANSWERED) == 0 {
      NoLatencies(latencies);
    } else {
      QuantileSplits(samples, 1, 2, 0.50, v);
      QuantileSplits(samples, 19, 20, 0.95, v);
      QuantileSplits(samples, 99, 100, 0.99, v);
      CountsAgree(samples, MaxOf(latencies));
    }
  }

  lemma NoLatencies(latencies: seq<real>)
    requires latencies == []
    ensures LatencyOf(latencies) == Latency(0.0, 0.0, 0.0, 0.0)
  {
    EmptyPercentile(0.50);
    EmptyPercentile(0.95);
    EmptyPercentile(0.99);
  }

  // ---------------------------------------------------------------------------------------------
  // Run by run
  // ---------------------------------------------------------------------------------------------

  lemma OneRun(run: LoadRun)
    ensures Sum([run], RunRequests) == run.requests && Sum([run], RunSuccesses) == run.successful
    ensures Sum([run], RunFallbacks) == run.fallbacks && SumReal([run], RunCost) == run.cost
    ensures SumReal([run], RunThroughput) == run.throughput && SumReal([run], RunP95) == run.latency.p95
  {
    assert [run][..0] == [];
  }

  /** The aggregate of a single run is what the run reports. */
  lemma AggregateOfOne(aggregate: Aggregate, run: LoadRun, name: string)
    requires Aggregates(aggregate, [run])
    ensures aggregate.runs == 1 && aggregate.requests == run.requests && aggregate.successful == run.successful
    ensures aggregate.failed == run.requests - run.successful && aggregate.fallbacks == run.fallbacks
    ensures aggregate.successRate * run.requests as real == run.successful as real
    ensures aggregate.meanThroughput == run.throughput && aggregate.meanP95 == run.latency.p95
    ensures aggregate.cost == run.cost
    ensures CountOf(aggregate.providers, name) == CountOf(run.providers, name)
    ensures aggregate.successful != 0 ==> aggregate.costPerSuccess * aggregate.successful as real == run.cost
    ensures aggregate.successful == 0 ==> aggregate.costPerSuccess == 0.0
  {
    hide Sum;
    hide SumReal;
    hide Merged;
    OneRun(run);
    SumsOneMore([], run);
    assert [] + [run] == [run];
    CountOfSum(Merged([]), run.providers, name);
    NothingMerged();
    QuotientTimes(run.throughput, 1.0);
    QuotientTimes(run.latency.p95, 1.0);
    if aggregate.successful != 0 {
      QuotientTimes(run.cost, aggregate.successful as real);
    }
  }

  lemma NothingMerged()
    ensures Merged([]) == map[]
  {
  }

  lemma SumsOneMore(runs: seq<LoadRun>, more: LoadRun)
    ensures Sum(runs + [more], RunRequests) == Sum(runs, RunRequests) + more.requests
    ensures Sum(runs + [more], RunSuccesses) == Sum(runs, RunSuccesses) + more.successful
    ensures Sum(runs + [more], RunFallbacks) == Sum(runs, RunFallbacks) + more.fallbacks
    ensures SumReal(runs + [more], RunCost) == SumReal(runs, RunCost) + more.cost
    ensures SumReal(runs + [more], RunThroughput) == SumReal(runs, RunThroughput) + more.throughput
    ensures SumReal(runs + [more], RunP95) == SumReal(runs, RunP95) + more.latency.p95
    ensures Merged(runs + [more]) == AddCounts(Merged(runs), more.providers)
  {
    assert (runs + [more])[..|runs|] == runs;
  }

  /** One run more adds its counts and cost, and enters the means with the weight of one run. */
  lemma AggregateOfOneMore(before: Aggregate, after: Aggregate, runs: seq<LoadRun>, more: LoadRun, name: string)
    requires runs != [] && Aggregates(before, runs) && Aggregates(after, runs + [more])
    ensures after.runs == before.runs + 1 == |runs| + 1
    ensures after.requests == before.requests + more.requests
    ensures after.successful == before.successful + more.successful
    ensures after.failed == before.failed + more.requests - more.successful
    ensures after.fallbacks == before.fallbacks + more.fallbacks && after.cost == before.cost + more.cost
    ensures CountOf(after.providers, name) == CountOf(before.providers, name) + CountOf(more.providers, name)
    ensures after.meanThroughput * after.runs as real == before.meanThroughput * before.runs as real + more.throughput
    ensures after.meanP95 * after.runs as real == before.meanP95 * before.runs as real + more.latency.p95
  {
    hide Sum;
    hide SumReal;
    hide Merged;
    hide Quotient;
    SumsOneMore(runs, more);
    CountOfSum(Merged(runs), more.providers, name);
    QuotientTimes(SumReal(runs, RunThroughput), |runs| as real);
    QuotientTimes(SumReal(runs, RunP95), |runs| as real);
    QuotientTimes(SumReal(runs + [more], RunThroughput), |runs + [more]| as real);
    QuotientTimes(SumReal(runs + [more], RunP95), |runs + [more]| as real);
  }

  lemma QuotientTimes(a: real, b: real)
    requires b != 0.0
    ensures Quotient(a, b) * b == a
  {
  }
}
