/** The load report (control_plane/evaluation/load.py:66-145): one summary a run, and their aggregate per profile. */
module LoadReport {
  import opened Contracts
  import opened Percentiles

  /** One request's outcome; a request that never got an answer has status 0 (load.py:205-232). */
  datatype Sample = Sample(statusCode: int, latencyMs: real, provider: Option<string>, cost: real, fallbacks: int)

  datatype Latency = Latency(p50: real, p95: real, p99: real, max: real)

  datatype LoadRun = LoadRun(
    profile: string,
    repetition: int,
    concurrency: int,
    requests: int,
    successful: int,
    failed: int,
    successRate: real,
    duration: real,
    throughput: real,
    latency: Latency,
    cost: real,
    providers: map<string, int>,
    fallbacks: int)

  datatype Aggregate = Aggregate(
    runs: nat,
    requests: int,
    successful: int,
    failed: int,
    successRate: real,
    meanThroughput: real,
    meanP95: real,
    cost: real,
    costPerSuccess: real,
    providers: map<string, int>,
    fallbacks: int)

  datatype ReportError = ZeroDivision

  // ---------------------------------------------------------------------------------------------
  // Sums and counters
  // ---------------------------------------------------------------------------------------------

  function Sum<T>(xs: seq<T>, f: T -> int): int {
    if xs == [] then 0 else Sum(xs[..|xs| - 1], f) + f(xs[|xs| - 1])
  }

  function SumReal<T>(xs: seq<T>, f: T -> real): real {
    if xs == [] then 0.0 else SumReal(xs[..|xs| - 1], f) + f(xs[|xs| - 1])
  }

  lemma {:induction false} SumAppend<T>(xs: seq<T>, ys: seq<T>, f: T -> int)
    ensures Sum(xs + ys, f) == Sum(xs, f) + Sum(ys, f)
  {
    if ys == [] {
      assert xs + ys == xs;
    } else {
      SumAppend(xs, ys[..|ys| - 1], f);
      assert (xs + ys)[..|xs + ys| - 1] == xs + ys[..|ys| - 1];
    }
  }

  lemma {:induction false} SumRealAppend<T>(xs: seq<T>, ys: seq<T>, f: T -> real)
    ensures SumReal(xs + ys, f) == SumReal(xs, f) + SumReal(ys, f)
  {
    if ys == [] {
      assert xs + ys == xs;
    } else {
      SumRealAppend(xs, ys[..|ys| - 1], f);
      assert (xs + ys)[..|xs + ys| - 1] == xs + ys[..|ys| - 1];
    }
  }

  function CountOf(counter: map<string, int>, key: string): int {
    if key in counter then counter[key] else 0
  }

  /** Counter.update: counts are added, and a key of either side is a key of the result. */
  function AddCounts(one: map<string, int>, two: map<string, int>): map<string, int> {
    map key | key in one.Keys + two.Keys :: CountOf(one, key) + CountOf(two, key)
  }

  lemma CountOfSum(one: map<string, int>, two: map<string, int>, key: string)
    ensures key in AddCounts(one, two) <==> key in one || key in two
    ensures CountOf(AddCounts(one, two), key) == CountOf(one, key) + CountOf(two, key)
  {
  }

  lemma AddCountsAssociates(one: map<string, int>, two: map<string, int>, three: map<string, int>)
    ensures AddCounts(AddCounts(one, two), three) == AddCounts(one, AddCounts(two, three))
  {
    hide AddCounts;
    var left, right := AddCounts(AddCounts(one, two), three), AddCounts(one, AddCounts(two, three));
    forall key: string
      ensures key in left <==> key in right
      ensures CountOf(left, key) == CountOf(right, key)
    {
      CountOfSum(one, two, key);
      CountOfSum(two, three, key);
      CountOfSum(AddCounts(one, two), three, key);
      CountOfSum(one, AddCounts(two, three), key);
    }
    SameCounters(left, right);
  }

  lemma SameCounters(one: map<string, int>, two: map<string, int>)
    requires forall key: string :: (key in one <==> key in two) && CountOf(one, key) == CountOf(two, key)
    ensures one == two
  {
    forall key | key in one ensures key in two && one[key] == two[key] {
      assert CountOf(one, key) == CountOf(two, key);
    }
    forall key | key in two ensures key in one {
      assert CountOf(one, key) == CountOf(two, key);
    }
    assert one.Keys == two.Keys;
  }

  lemma AddNoCounts(one: map<string, int>)
    ensures AddCounts(one, map[]) == one
  {
  }

  // ---------------------------------------------------------------------------------------------
  // One run
  // ---------------------------------------------------------------------------------------------

  function Successes(samples: seq<Sample>): seq<Sample> {
    if samples == [] then []
    else
      var last := samples[|samples| - 1];
      Successes(samples[..|samples| - 1]) + if last.statusCode == 200 then [last] else []
  }

  function OneProvider(sample: Sample): map<string, int> {
    if sample.provider.Some? then map[sample.provider.value := 1] else map[]
  }

  function Distribution(samples: seq<Sample>): map<string, int> {
    if samples == [] then map[]
    else AddCounts(Distribution(samples[..|samples| - 1]), OneProvider(samples[|samples| - 1]))
  }

  function SampleCost(sample: Sample): real {
    sample.cost
  }

  function SampleFallbacks(sample: Sample): int {
    sample.fallbacks
  }

  function Latencies(samples: seq<Sample>): (latencies: seq<real>)
    ensures |latencies| == |samples|
  {
    seq(|samples|, i requires 0 <= i < |samples| => samples[i].latencyMs)
  }

  function MaxOf(values: seq<real>): (max: real)
    requires values != []
    ensures max in values && forall v :: v in values ==> v <= max
  {
    if |values| == 1 then values[0]
    else
      assert values == [values[0]] + values[1..];
      var rest := MaxOf(values[1..]);
      if rest > values[0] then rest else values[0]
  }

  function PercentileOf(values: seq<real>, quantile: real): real {
    match Percentile(values, quantile)
    case Ok(v) => v
    case Err(_) => 0.0
  }

  function LatencyOf(latencies: seq<real>): Latency {
    Latency(
      PercentileOf(latencies, 0.50),
      PercentileOf(latencies, 0.95),
      PercentileOf(latencies, 0.99),
      if latencies == [] then 0.0 else MaxOf(latencies))
  }

  function Quotient(a: real, b: real): real {
    if b == 0.0 then 0.0 else a / b
  }

  function Summarize(
    profile: string, repetition: int, concurrency: int, duration: real, samples: seq<Sample>): LoadRun
  {
    var successes := Successes(samples);
    LoadRun(
      profile,
      repetition,
      concurrency,
      |samples|,
      |successes|,
      |samples| - |successes|,
      Quotient(|successes| as real, |samples| as real),
      duration,
      Quotient(|samples| as real, duration),
      LatencyOf(Latencies(successes)),
      SumReal(successes, SampleCost),
      Distribution(successes),
      Sum(successes, SampleFallbacks))
  }

  /** The reported percentiles never fall: p50 <= p95 <= p99 <= max, and each is a latency that was measured. */
  lemma PercentilesAreOrdered(latencies: seq<real>)
    ensures var latency := LatencyOf(latencies); latency.p50 <= latency.p95 <= latency.p99 <= latency.max
    ensures var latency := LatencyOf(latencies);
            latencies != [] ==> latency.p50 in latencies && latency.p95 in latencies && latency.p99 in latencies
  {
    hide Percentile;
    if latencies != [] {
      PercentileIsMonotone(latencies, 0.50, 0.95);
      PercentileIsMonotone(latencies, 0.95, 0.99);
      PercentileIsMember(latencies, 0.50);
      PercentileIsMember(latencies, 0.95);
      PercentileIsMember(latencies, 0.99);
    } else {
      EmptyPercentile(0.50);
      EmptyPercentile(0.95);
      EmptyPercentile(0.99);
    }
  }

  lemma PercentileIsMember(values: seq<real>, quantile: real)
    requires values != [] && 0.0 < quantile <= 1.0
    ensures Percentile(values, quantile).Ok? && Percentile(values, quantile).value in values
  {
    hide Rank;
    hide Sorted;
    RankInRange(|values|, quantile);
    var rank := Rank(|values|, quantile);
    assert Sorted(values)[rank - 1] in Sorted(values);
    InSorted(values, Sorted(values)[rank - 1]);
  }

  lemma EmptyPercentile(quantile: real)
    ensures Percentile([], quantile) == Ok(0.0)
  {
  }

  lemma {:induction false} SuccessesAppend(one: seq<Sample>, two: seq<Sample>)
    ensures Successes(one + two) == Successes(one) + Successes(two)
  {
    if two == [] {
      assert one + two == one;
    } else {
      SuccessesAppend(one, two[..|two| - 1]);
      assert (one + two)[..|one + two| - 1] == one + two[..|two| - 1];
    }
  }

  lemma {:induction false} DistributionAppend(one: seq<Sample>, two: seq<Sample>)
    ensures Distribution(one + two) == AddCounts(Distribution(one), Distribution(two))
  {
    if two == [] {
      assert one + two == one;
      AddNoCounts(Distribution(one));
    } else {
      var front := two[..|two| - 1];
      DistributionAppend(one, front);
      assert (one + two)[..|one + two| - 1] == one + front;
      AddCountsAssociates(Distribution(one), Distribution(front), OneProvider(two[|two| - 1]));
    }
  }

  function ServedBy(provider: string): Sample -> int {
    (sample: Sample) => if sample.provider == Some(provider) then 1 else 0
  }

  /** The distribution counts: a provider is listed exactly when it served a sample, with the number it served. */
  lemma {:induction false} DistributionCounts(samples: seq<Sample>, provider: string)
    ensures CountOf(Distribution(samples), provider) == Sum(samples, ServedBy(provider)) >= 0
    ensures provider in Distribution(samples) <==> Sum(samples, ServedBy(provider)) > 0
  {
    if samples != [] {
      DistributionCounts(samples[..|samples| - 1], provider);
    }
  }

  // ---------------------------------------------------------------------------------------------
  // The aggregate of many runs
  // ---------------------------------------------------------------------------------------------

  function RunRequests(run: LoadRun): int {
    run.requests
  }

  function RunSuccesses(run: LoadRun): int {
    run.successful
  }

  function RunCost(run: LoadRun): real {
    run.cost
  }

  function RunThroughput(run: LoadRun): real {
    run.throughput
  }

  function RunP95(run: LoadRun): real {
    run.latency.p95
  }

  function RunFallbacks(run: LoadRun): int {
    run.fallbacks
  }

  function RunsOf(profile: string, runs: seq<LoadRun>): seq<LoadRun>
    decreases |runs|
  {
    if runs == [] then []
    else
      var last := runs[|runs| - 1];
      RunsOf(profile, runs[..|runs| - 1]) + if last.profile == profile then [last] else []
  }

  ghost function Profiles(runs: seq<LoadRun>): set<string> {
    set i | 0 <= i < |runs| :: runs[i].profile
  }

  function Merged(runs: seq<LoadRun>): map<string, int> {
    if runs == [] then map[] else AddCounts(Merged(runs[..|runs| - 1]), runs[|runs| - 1].providers)
  }

  /** `aggregate` is what the report should say of these runs; it needs a request to divide by. */
  ghost predicate Aggregates(aggregate: Aggregate, runs: seq<LoadRun>) {
    && aggregate.runs == |runs|
    && aggregate.requests == Sum(runs, RunRequests) != 0
    && aggregate.successful == Sum(runs, RunSuccesses)
    && aggregate.failed == aggregate.requests - aggregate.successful
    && aggregate.successRate == aggregate.successful as real / aggregate.requests as real
    && aggregate.meanThroughput == Quotient(SumReal(runs, RunThroughput), |runs| as real)
    && aggregate.meanP95 == Quotient(SumReal(runs, RunP95), |runs| as real)
    && aggregate.cost == SumReal(runs, RunCost)
    && aggregate.costPerSuccess == Quotient(aggregate.cost, aggregate.successful as real)
    && aggregate.providers == Merged(runs)
    && aggregate.fallbacks == Sum(runs, RunFallbacks)
  }

  method AggregateProfile(runs: seq<LoadRun>) returns (r: Result<Aggregate, ReportError>)
    ensures r.Err? <==> Sum(runs, RunRequests) == 0
    ensures r.Ok? ==> Aggregates(r.value, runs)
  {
    var requests := Sum(runs, RunRequests);
    var successes := Sum(runs, RunSuccesses);
    var cost := SumReal(runs, RunCost);
    var providers: map<string, int> := map[];
    for i := 0 to |runs|
      invariant providers == Merged(runs[..i])
    {
      providers := AddCounts(providers, runs[i].providers);
      assert runs[..i + 1][..i] == runs[..i];
    }
    assert runs[..|runs|] == runs;
    if requests == 0 {
      return Err(ZeroDivision);
    }
    return Ok(Aggregate(
      |runs|,
      requests,
      successes,
      requests - successes,
      successes as real / requests as real,
      Quotient(SumReal(runs, RunThroughput), |runs| as real),
      Quotient(SumReal(runs, RunP95), |runs| as real),
      cost,
      Quotient(cost, successes as real),
      providers,
      Sum(runs, RunFallbacks)));
  }

  method GroupByProfile(runs: seq<LoadRun>) returns (grouped: map<string, seq<LoadRun>>)
    ensures grouped.Keys == Profiles(runs)
    ensures forall profile :: profile in grouped ==> grouped[profile] == RunsOf(profile, runs)
  {
    grouped := map[];
    for i := 0 to |runs|
      invariant grouped.Keys == Profiles(runs[..i])
      invariant forall profile :: profile in grouped ==> grouped[profile] == RunsOf(profile, runs[..i])
    {
      var run := runs[i];
      ProfilesGrow(runs, i);
      RunsOfGrow(runs, i);
      if run.profile in grouped {
        grouped := grouped[run.profile := grouped[run.profile] + [run]];
      } else {
        NoRunsOf(run.profile, runs[..i]);
        grouped := grouped[run.profile := [run]];
      }
    }
    assert runs[..|runs|] == runs;
  }

  lemma ProfilesGrow(runs: seq<LoadRun>, i: nat)
    requires i < |runs|
    ensures Profiles(runs[..i + 1]) == Profiles(runs[..i]) + {runs[i].profile}
  {
    var before, after := Profiles(runs[..i]), Profiles(runs[..i + 1]);
    forall profile ensures profile in after <==> profile in before || profile == runs[i].profile {
      if profile in before {
        var j :| 0 <= j < i && runs[..i][j].profile == profile;
        assert runs[..i + 1][j].profile == profile;
      }
      assert runs[..i + 1][i].profile == runs[i].profile;
      if profile in after && profile != runs[i].profile {
        var j :| 0 <= j < i + 1 && runs[..i + 1][j].profile == profile;
        assert runs[..i][j].profile == profile;
      }
    }
  }

  lemma RunsOfGrow(runs: seq<LoadRun>, i: nat)
    requires i < |runs|
    ensures forall profile :: RunsOf(profile, runs[..i + 1]) ==
                              RunsOf(profile, runs[..i]) + if runs[i].profile == profile then [runs[i]] else []
  {
    assert runs[..i + 1][..i] == runs[..i];
  }

  lemma {:induction false} NoRunsOf(profile: string, runs: seq<LoadRun>)
    requires profile !in Profiles(runs)
    ensures RunsOf(profile, runs) == []
    decreases |runs|
  {
    if runs != [] {
      ProfilesGrow(runs, |runs| - 1);
      assert runs[..|runs| - 1 + 1] == runs;
      NoRunsOf(profile, runs[..|runs| - 1]);
    }
  }

  predicate NoRequests(profile: string, runs: seq<LoadRun>) {
    Sum(RunsOf(profile, runs), RunRequests) == 0
  }

  ghost predicate Reports(aggregates: map<string, Aggregate>, runs: seq<LoadRun>) {
    forall profile :: profile in aggregates ==> Aggregates(aggregates[profile], RunsOf(profile, runs))
  }

  /** One aggregate for each profile that has a run; one profile without a request fails the whole report. */
  method AggregateRuns(runs: seq<LoadRun>) returns (r: Result<map<string, Aggregate>, ReportError>)
    ensures r.Err? <==> exists profile :: profile in Profiles(runs) && NoRequests(profile, runs)
    ensures r.Ok? ==> r.value.Keys == Profiles(runs) && Reports(r.value, runs)
  {
    hide Aggregates;
    hide RunsOf;
    hide Sum;
    hide Profiles;
    var grouped := GroupByProfile(runs);
    var aggregates: map<string, Aggregate> := map[];
    var left := grouped.Keys;
    while left != {}
      invariant left <= grouped.Keys && aggregates.Keys == grouped.Keys - left
      invariant Reports(aggregates, runs)
      invariant forall profile :: profile in aggregates ==> !NoRequests(profile, runs)
      decreases |left|
    {
      var profile :| profile in left;
      var one := AggregateProfile(grouped[profile]);
      if one.Err? {
        assert NoRequests(profile, runs);
        return Err(ZeroDivision);
      }
      aggregates := aggregates[profile := one.value];
      left := left - {profile};
    }
    return Ok(aggregates);
  }

  // ---------------------------------------------------------------------------------------------
  // Aggregating summaries loses nothing
  // ---------------------------------------------------------------------------------------------

  datatype Batch = Batch(profile: string, repetition: int, concurrency: int, duration: real, samples: seq<Sample>)

  function SummaryOf(batch: Batch): LoadRun {
    Summarize(batch.profile, batch.repetition, batch.concurrency, batch.duration, batch.samples)
  }

  function Summaries(batches: seq<Batch>): (runs: seq<LoadRun>)
    ensures |runs| == |batches|
  {
    seq(|batches|, i requires 0 <= i < |batches| => SummaryOf(batches[i]))
  }

  /** All the samples of a profile's runs, one run after the other. */
  function SamplesOf(profile: string, batches: seq<Batch>): seq<Sample>
    decreases |batches|
  {
    if batches == [] then []
    else
      var last := batches[|batches| - 1];
      SamplesOf(profile, batches[..|batches| - 1]) + if last.profile == profile then last.samples else []
  }

  lemma RunsOfSummaries(profile: string, batches: seq<Batch>)
    requires batches != []
    ensures var last := batches[|batches| - 1];
            RunsOf(profile, Summaries(batches)) ==
            RunsOf(profile, Summaries(batches[..|batches| - 1])) +
            if last.profile == profile then [SummaryOf(last)] else []
  {
    assert Summaries(batches)[..|batches| - 1] == Summaries(batches[..|batches| - 1]);
  }

  /** The runs report between them exactly what the samples hold. */
  ghost predicate SameCounts(runs: seq<LoadRun>, all: seq<Sample>) {
    && Sum(runs, RunRequests) == |all|
    && Sum(runs, RunSuccesses) == |Successes(all)|
    && SumReal(runs, RunCost) == SumReal(Successes(all), SampleCost)
    && Merged(runs) == Distribution(Successes(all))
    && Sum(runs, RunFallbacks) == Sum(Successes(all), SampleFallbacks)
  }

  lemma {:induction false} CountsAreKept(profile: string, batches: seq<Batch>)
    ensures SameCounts(RunsOf(profile, Summaries(batches)), SamplesOf(profile, batches))
    decreases |batches|
  {
    hide *;
    if batches == [] {
      NothingToCount(profile);
    } else {
      CountsAreKept(profile, batches[..|batches| - 1]);
      OneMoreBatch(profile, batches);
    }
  }

  lemma NothingToCount(profile: string)
    ensures SameCounts(RunsOf(profile, Summaries([])), SamplesOf(profile, []))
  {
    assert Summaries([]) == [];
  }

  lemma OneMoreBatch(profile: string, batches: seq<Batch>)
    requires batches != []
    requires var front := batches[..|batches| - 1];
             SameCounts(RunsOf(profile, Summaries(front)), SamplesOf(profile, front))
    ensures SameCounts(RunsOf(profile, Summaries(batches)), SamplesOf(profile, batches))
  {
    hide *;
    var front, last := batches[..|batches| - 1], batches[|batches| - 1];
    RunsOfSummaries(profile, batches);
    SamplesOfBatches(profile, batches);
    if last.profile == profile {
      OneMoreRun(RunsOf(profile, Summaries(front)), SamplesOf(profile, front), last);
    } else {
      assert RunsOf(profile, Summaries(front)) + [] == RunsOf(profile, Summaries(front));
      assert SamplesOf(profile, front) + [] == SamplesOf(profile, front);
    }
  }

  lemma SamplesOfBatches(profile: string, batches: seq<Batch>)
    requires batches != []
    ensures var last := batches[|batches| - 1];
            SamplesOf(profile, batches) ==
            SamplesOf(profile, batches[..|batches| - 1]) + if last.profile == profile then last.samples else []
  {
  }

  lemma OneMoreRun(runs: seq<LoadRun>, all: seq<Sample>, batch: Batch)
    requires SameCounts(runs, all)
    ensures SameCounts(runs + [SummaryOf(batch)], all + batch.samples)
  {
    var run := SummaryOf(batch);
    assert (runs + [run])[..|runs|] == runs;
    SuccessesAppend(all, batch.samples);
    SumRealAppend(Successes(all), Successes(batch.samples), SampleCost);
    SumAppend(Successes(all), Successes(batch.samples), SampleFallbacks);
    DistributionAppend(Successes(all), Successes(batch.samples));
  }

  /** What the report says of a profile is what one summary of all its samples would say: requests, successes,
      failures, cost, provider distribution and fallbacks. */
  lemma AggregateIsSummaryOfAll(
    profile: string, batches: seq<Batch>, aggregate: Aggregate, repetition: int, concurrency: int, duration: real)
    requires Aggregates(aggregate, RunsOf(profile, Summaries(batches)))
    ensures var whole := Summarize(profile, repetition, concurrency, duration, SamplesOf(profile, batches));
            && aggregate.requests == whole.requests > 0
            && aggregate.successful == whole.successful
            && aggregate.failed == whole.failed
            && aggregate.cost == whole.cost
            && aggregate.providers == whole.providers
            && aggregate.fallbacks == whole.fallbacks
            && aggregate.successRate == whole.successRate
  {
    CountsAreKept(profile, batches);
  }

  /** The report fails exactly when some profile was run and none of its runs had a request. */
  lemma ReportFailsExactlyWhen(profile: string, batches: seq<Batch>)
    ensures NoRequests(profile, Summaries(batches)) <==> SamplesOf(profile, batches) == []
  {
    CountsAreKept(profile, batches);
  }
}
