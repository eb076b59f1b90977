/** Conservation between the request loop and the telemetry (control_plane/main.py:336-389 and 441-449,
    control_plane/telemetry.py:174-235), for any number of requests whose records interleave in any way. */
module Accounting {
  import opened Contracts
  import opened Fallback
  import opened Gateway
  import opened Idempotency
  import opened Telemetry

  // ---------------------------------------------------------------------------------------------
  // Interleavings
  // ---------------------------------------------------------------------------------------------

  /** A record together with the request that made it. */
  datatype Tagged = Tagged(request: nat, record: Record)

  function Records(log: seq<Tagged>): (records: seq<Record>)
    ensures |records| == |log|
  {
    if log == [] then [] else Records(log[..|log| - 1]) + [log[|log| - 1].record]
  }

  function Project(log: seq<Tagged>, request: nat): seq<Record> {
    if log == [] then []
    else
      var last := |log| - 1;
      Project(log[..last], request) + if log[last].request == request then [log[last].record] else []
  }

  /** The log is the traces of all requests, each in its own order, mixed in some way. */
  ghost predicate Interleaves(log: seq<Tagged>, traces: seq<seq<Record>>) {
    && (forall i :: 0 <= i < |log| ==> log[i].request < |traces|)
    && (forall k :: 0 <= k < |traces| ==> Project(log, k) == traces[k])
  }

  function TotalSum(traces: seq<seq<Record>>, value: Record -> int): int {
    if traces == [] then 0
    else TotalSum(traces[..|traces| - 1], value) + Sum(traces[|traces| - 1], value)
  }

  function TotalCount(traces: seq<seq<Record>>, counts: Record -> bool): nat {
    if traces == [] then 0
    else TotalCount(traces[..|traces| - 1], counts) + Count(traces[|traces| - 1], counts)
  }

  lemma {:induction false} TotalAfterUpdate(
    traces: seq<seq<Record>>, k: nat, trace: seq<Record>, value: Record -> int)
    requires k < |traces|
    ensures TotalSum(traces[k := trace], value) == TotalSum(traces, value) - Sum(traces[k], value) + Sum(trace, value)
  {
    var last := |traces| - 1;
    if k == last {
      assert traces[k := trace][..last] == traces[..last];
    } else {
      TotalAfterUpdate(traces[..last], k, trace, value);
      assert traces[k := trace][..last] == traces[..last][k := trace];
    }
  }

  lemma {:induction false} NothingToSum(traces: seq<seq<Record>>, value: Record -> int)
    requires forall k :: 0 <= k < |traces| ==> traces[k] == []
    ensures TotalSum(traces, value) == 0
  {
    if traces != [] {
      NothingToSum(traces[..|traces| - 1], value);
    }
  }

  lemma DropLast(log: seq<Tagged>, traces: seq<seq<Record>>) returns (shorter: seq<seq<Record>>)
    requires log != [] && Interleaves(log, traces)
    ensures var last := log[|log| - 1];
            && |shorter| == |traces|
            && traces[last.request] == shorter[last.request] + [last.record]
            && shorter == traces[last.request := shorter[last.request]]
            && Interleaves(log[..|log| - 1], shorter)
  {
    var last := log[|log| - 1];
    shorter := traces[last.request := Project(log[..|log| - 1], last.request)];
    assert Project(log, last.request) == traces[last.request];
    forall k | 0 <= k < |traces|
      ensures Project(log[..|log| - 1], k) == shorter[k]
    {
      assert Project(log, k) == traces[k];
    }
  }

  lemma SumSnoc(records: seq<Record>, e: Record, value: Record -> int)
    ensures Sum(records + [e], value) == Sum(records, value) + value(e)
  {
    assert (records + [e])[..|records|] == records;
  }

  /** Whatever is added up over an interleaving is added up over the traces. */
  lemma {:induction false} SumInterleaving(log: seq<Tagged>, traces: seq<seq<Record>>, value: Record -> int)
    requires Interleaves(log, traces)
    ensures Sum(Records(log), value) == TotalSum(traces, value)
    decreases |log|
  {
    if log == [] {
      forall k | 0 <= k < |traces| ensures traces[k] == [] {
        assert Project(log, k) == traces[k];
      }
      NothingToSum(traces, value);
    } else {
      var n := |log| - 1;
      var last := log[n];
      var shorter := DropLast(log, traces);
      SumInterleaving(log[..n], shorter, value);
      TotalAfterUpdate(traces, last.request, shorter[last.request], value);
      SumSnoc(shorter[last.request], last.record, value);
      SumSnoc(Records(log[..n]), last.record, value);
    }
  }

  function Indicator(counts: Record -> bool): Record -> int {
    (e: Record) => if counts(e) then 1 else 0
  }

  lemma {:induction false} CountIsSum(records: seq<Record>, counts: Record -> bool)
    ensures Count(records, counts) == Sum(records, Indicator(counts))
  {
    if records != [] {
      CountIsSum(records[..|records| - 1], counts);
    }
  }

  lemma {:induction false} TotalCountIsSum(traces: seq<seq<Record>>, counts: Record -> bool)
    ensures TotalCount(traces, counts) == TotalSum(traces, Indicator(counts))
  {
    if traces != [] {
      TotalCountIsSum(traces[..|traces| - 1], counts);
      CountIsSum(traces[|traces| - 1], counts);
    }
  }

  /** Whatever is counted in an interleaving is counted in the traces. */
  lemma CountInterleaving(log: seq<Tagged>, traces: seq<seq<Record>>, counts: Record -> bool)
    requires Interleaves(log, traces)
    ensures Count(Records(log), counts) == TotalCount(traces, counts)
  {
    hide Interleaves;
    SumInterleaving(log, traces, Indicator(counts));
    CountIsSum(Records(log), counts);
    TotalCountIsSum(traces, counts);
  }

  lemma {:induction false} SumAppend(a: seq<Record>, b: seq<Record>, value: Record -> int)
    ensures Sum(a + b, value) == Sum(a, value) + Sum(b, value)
  {
    if b == [] {
      assert a + b == a;
    } else {
      var last := |b| - 1;
      SumAppend(a, b[..last], value);
      assert (a + b)[..|a| + last] == a + b[..last];
    }
  }

  lemma {:induction false} CountAppend(a: seq<Record>, b: seq<Record>, counts: Record -> bool)
    ensures Count(a + b, counts) == Count(a, counts) + Count(b, counts)
  {
    if b == [] {
      assert a + b == a;
    } else {
      var last := |b| - 1;
      CountAppend(a, b[..last], counts);
      assert (a + b)[..|a| + last] == a + b[..last];
    }
  }

  lemma {:induction false} CountAll(records: seq<Record>, counts: Record -> bool)
    ensures (forall i :: 0 <= i < |records| ==> counts(records[i])) ==> Count(records, counts) == |records|
    ensures (forall i :: 0 <= i < |records| ==> !counts(records[i])) ==> Count(records, counts) == 0
  {
    if records != [] {
      var last := |records| - 1;
      CountAll(records[..last], counts);
      assert forall i :: 0 <= i < last ==> records[..last][i] == records[i];
    }
  }

  // ---------------------------------------------------------------------------------------------
  // One request
  // ---------------------------------------------------------------------------------------------

  /** A finished request: its parameters and its reply. */
  datatype Finished = Finished(cacheEnabled: bool, request: Request, reply: HttpReply, times: Times)

  function TraceOf(f: Finished): seq<Record> {
    Emitted(f.cacheEnabled, f.request, f.reply, f.times)
  }

  /** How many attempts of the request failed, according to its reply. */
  function FailedAttempts(reply: HttpReply): nat {
    match reply
    case Completed(body) => if body.fallbackCount < 0 then 0 else body.fallbackCount
    case Unavailable(attempted) => |attempted|
    case _ => 0
  }

  /** What the gateway's replies look like: the fallbacks are the attempts but one, and a hit is only possible when
      the cache is in use. */
  predicate WellFormed(f: Finished) {
    f.reply.Completed? ==>
      && f.reply.body.fallbackCount == |f.reply.body.attemptedProviders| - 1
      && f.reply.body.attemptedProviders != []
      && (f.reply.body.cacheHit ==> f.cacheEnabled && !f.request.routing.bypassCache)
  }

  /** A request that has been served, with all it met on its way: what the replay check found, what each attempt met,
      and the times measured. */
  datatype Served = Served(visit: Visit, lookup: Lookup<Completion>, worlds: seq<World>, times: Times)

  ghost predicate Enough(registry: seq<Contracts.Descriptor>, q: Served) {
    MaxAttempts(registry, q.visit.request) <= |q.worlds|
  }

  function ReplyTo(registry: seq<Contracts.Descriptor>, cacheEnabled: bool, q: Served): HttpReply
    requires Enough(registry, q)
  {
    Respond(registry, cacheEnabled, q.visit, q.lookup, q.worlds)
  }

  function FinishedOf(registry: seq<Contracts.Descriptor>, cacheEnabled: bool, q: Served): Finished
    requires Enough(registry, q)
  {
    Finished(cacheEnabled, q.visit.request, ReplyTo(registry, cacheEnabled, q), q.times)
  }

  lemma HitsNeedCache(cacheEnabled: bool, r: Request, name: string, w: World)
    requires Attempt(cacheEnabled, r, name, w).Some? && Attempt(cacheEnabled, r, name, w).value.1
    ensures UsesCache(cacheEnabled, r)
  {
  }

  /** What the endpoint replies is well formed, whatever it met. */
  lemma RepliesAreWellFormed(registry: seq<Contracts.Descriptor>, cacheEnabled: bool, q: Served)
    requires Enough(registry, q)
    ensures WellFormed(FinishedOf(registry, cacheEnabled, q))
  {
    hide Respond;
    hide Attempt;
    var reply := ReplyTo(registry, cacheEnabled, q);
    if reply.Completed? {
      MetadataIsTruthful(registry, cacheEnabled, q.visit, q.lookup, q.worlds);
      var n := reply.body.fallbackCount;
      if reply.body.cacheHit {
        HitsNeedCache(cacheEnabled, q.visit.request, reply.body.provider, q.worlds[n]);
      }
    }
  }

  /** Counting what holds of the first records alike, and of the rest alike. */
  lemma CountParts(records: seq<Record>, n: nat, counts: Record -> bool, first: bool, rest: bool)
    requires n <= |records|
    requires forall i :: 0 <= i < n ==> counts(records[i]) == first
    requires forall i :: n <= i < |records| ==> counts(records[i]) == rest
    ensures Count(records, counts) == (if first then n else 0) + if rest then |records| - n else 0
  {
    hide Count;
    assert records == records[..n] + records[n..];
    CountAppend(records[..n], records[n..], counts);
    CountAll(records[..n], counts);
    CountAll(records[n..], counts);
  }

  lemma CountCalls(r: Request, calls: seq<ProviderCall>, t: Times, failed: nat)
    requires failed <= |calls|
    requires forall i :: 0 <= i < |calls| ==> (calls[i].success <==> i >= failed)
    ensures Count(Timed(r, calls, t), IS_SUCCESS) == |calls| - failed
    ensures Count(Timed(r, calls, t), IS_FAILURE) == failed
    ensures Count(Timed(r, calls, t), IS_INFERENCE) == 0
    ensures Count(Timed(r, calls, t), IS_HIT) == 0
    ensures Count(Timed(r, calls, t), IS_REPLAY) == 0
  {
    CountParts(Timed(r, calls, t), failed, IS_SUCCESS, false, true);
    CountParts(Timed(r, calls, t), failed, IS_FAILURE, true, false);
    CountParts(Timed(r, calls, t), failed, IS_INFERENCE, false, false);
    CountParts(Timed(r, calls, t), failed, IS_HIT, false, false);
    CountParts(Timed(r, calls, t), failed, IS_REPLAY, false, false);
  }

  lemma CountEvents(events: seq<InferenceEvent>, records: seq<Record>)
    requires |events| <= 1 && |records| == |events|
    requires forall i :: 0 <= i < |events| ==> records[i] == Inference(events[i])
    ensures Count(records, IS_SUCCESS) == 0 && Count(records, IS_FAILURE) == 0
    ensures Count(records, IS_INFERENCE) == |events|
    ensures Count(records, IS_HIT) == if events != [] && events[0].cacheStatus.Hit? then 1 else 0
    ensures Count(records, IS_REPLAY) == if events != [] && events[0].cacheStatus.Replay? then 1 else 0
  {
    if events != [] {
      assert records[..0] == [];
    }
  }

  /** The calls behind a reply: its failed attempts, then a success unless the cache or nobody answered. */
  lemma CallsOfReply(f: Finished)
    requires WellFormed(f)
    ensures var calls := CallsBehind(f.reply);
            && |calls| == FailedAttempts(f.reply) + (if f.reply.Completed? && !f.reply.body.cacheHit then 1 else 0)
            && forall i :: 0 <= i < |calls| ==> (calls[i].success <==> i >= FailedAttempts(f.reply))
  {
  }

  /** Of one request: it made a successful call exactly if it was completed, and neither by the cache nor by a
      replay; and its failed calls are its fallbacks, or all its attempts when nobody answered. */
  lemma RequestIsAccounted(f: Finished)
    requires WellFormed(f)
    ensures var trace := TraceOf(f);
            && Count(trace, IS_SUCCESS) + Count(trace, IS_HIT) + Count(trace, IS_REPLAY) == Count(trace, IS_INFERENCE)
            && Count(trace, IS_FAILURE) == FailedAttempts(f.reply)
  {
    var calls := CallsBehind(f.reply);
    var timed := Timed(f.request, calls, f.times);
    var recorded := TraceOf(f)[|timed|..];
    CallsOfReply(f);
    CountCalls(f.request, calls, f.times, FailedAttempts(f.reply));
    CountEvents(EventsBehind(f.cacheEnabled, f.request, f.reply, f.times), recorded);
    assert TraceOf(f) == timed + recorded;
    CountAppend(timed, recorded, IS_SUCCESS);
    CountAppend(timed, recorded, IS_FAILURE);
    CountAppend(timed, recorded, IS_INFERENCE);
    CountAppend(timed, recorded, IS_HIT);
    CountAppend(timed, recorded, IS_REPLAY);
  }

  // What a reply adds to the counters: whether it is an answer, one of the cache, or a replay, and the fallbacks it
  // reports.
  const ANSWERS: HttpReply -> int :=
    (reply: HttpReply) => if reply.Completed? || reply.ReplayedCompletion? then 1 else 0
  const HITS: HttpReply -> int := (reply: HttpReply) => if reply.Completed? && reply.body.cacheHit then 1 else 0
  const REPLAYS: HttpReply -> int := (reply: HttpReply) => if reply.ReplayedCompletion? then 1 else 0
  const REPORTED_FALLBACKS: HttpReply -> int :=
    (reply: HttpReply) => if reply.Completed? || reply.ReplayedCompletion? then reply.body.fallbackCount else 0

  lemma {:induction false} CallsHaveNoFallbacks(records: seq<Record>)
    requires forall i :: 0 <= i < |records| ==> records[i].ProviderCall?
    ensures Sum(records, FALLBACKS) == 0
  {
    if records != [] {
      CallsHaveNoFallbacks(records[..|records| - 1]);
    }
  }

  /** Of one request: it is counted as completed exactly if it was answered, as a hit exactly if the cache answered, as
      a replay exactly if it was one, and with the fallbacks that its reply reports. */
  lemma RequestIsCounted(f: Finished)
    requires WellFormed(f)
    ensures var trace := TraceOf(f);
            && Count(trace, IS_INFERENCE) == ANSWERS(f.reply)
            && Count(trace, IS_HIT) == HITS(f.reply)
            && Count(trace, IS_REPLAY) == REPLAYS(f.reply)
            && Sum(trace, FALLBACKS) == REPORTED_FALLBACKS(f.reply)
  {
    hide Timed;
    hide CallsBehind;
    hide EventsBehind;
    hide WellFormed;
    hide Count;
    hide Sum;
    var calls := CallsBehind(f.reply);
    var timed := Timed(f.request, calls, f.times);
    EventOfReply(f);
    var events := EventsBehind(f.cacheEnabled, f.request, f.reply, f.times);
    var recorded := TraceOf(f)[|timed|..];
    assert TraceOf(f) == timed + recorded;
    CallsHaveNoFallbacks(timed);
    CountAll(timed, IS_INFERENCE);
    CountAll(timed, IS_HIT);
    CountAll(timed, IS_REPLAY);
    CountEvents(events, recorded);
    CountAppend(timed, recorded, IS_INFERENCE);
    CountAppend(timed, recorded, IS_HIT);
    CountAppend(timed, recorded, IS_REPLAY);
    SumAppend(timed, recorded, FALLBACKS);
    EventFallbacks(events, recorded);
  }

  /** The event behind a reply. */
  lemma EventOfReply(f: Finished)
    requires WellFormed(f)
    ensures var events := EventsBehind(f.cacheEnabled, f.request, f.reply, f.times);
            && |events| == ANSWERS(f.reply)
            && (if events != [] && events[0].cacheStatus.Hit? then 1 else 0) == HITS(f.reply)
            && (if events != [] && events[0].cacheStatus.Replay? then 1 else 0) == REPLAYS(f.reply)
            && (if events == [] then 0 else events[0].fallbackCount) == REPORTED_FALLBACKS(f.reply)
  {
  }

  lemma EventFallbacks(events: seq<InferenceEvent>, records: seq<Record>)
    requires |events| <= 1 && |records| == |events|
    requires forall i :: 0 <= i < |events| ==> records[i] == Inference(events[i])
    ensures Sum(records, FALLBACKS) == if events == [] then 0 else events[0].fallbackCount
  {
    if events != [] {
      assert records[..0] == [];
    }
  }

  // ---------------------------------------------------------------------------------------------
  // All requests
  // ---------------------------------------------------------------------------------------------

  function Traces(fs: seq<Finished>): (traces: seq<seq<Record>>)
    ensures |traces| == |fs| && forall i :: 0 <= i < |fs| ==> traces[i] == TraceOf(fs[i])
  {
    seq(|fs|, i requires 0 <= i < |fs| => TraceOf(fs[i]))
  }

  function TotalFailedAttempts(fs: seq<Finished>): nat {
    if fs == [] then 0 else TotalFailedAttempts(fs[..|fs| - 1]) + FailedAttempts(fs[|fs| - 1].reply)
  }

  function Totals(fs: seq<Finished>, value: HttpReply -> int): int {
    if fs == [] then 0 else Totals(fs[..|fs| - 1], value) + value(fs[|fs| - 1].reply)
  }

  lemma {:induction false} TracesAreCounted(fs: seq<Finished>)
    requires forall i :: 0 <= i < |fs| ==> WellFormed(fs[i])
    ensures var ts := Traces(fs);
            && TotalCount(ts, IS_INFERENCE) == Totals(fs, ANSWERS)
            && TotalCount(ts, IS_HIT) == Totals(fs, HITS)
            && TotalCount(ts, IS_REPLAY) == Totals(fs, REPLAYS)
            && TotalSum(ts, FALLBACKS) == Totals(fs, REPORTED_FALLBACKS)
  {
    hide TraceOf;
    if fs != [] {
      var last := |fs| - 1;
      TracesAreCounted(fs[..last]);
      RequestIsCounted(fs[last]);
      assert Traces(fs)[..last] == Traces(fs[..last]);
    }
  }

  lemma {:induction false} TracesAreAccounted(fs: seq<Finished>)
    requires forall i :: 0 <= i < |fs| ==> WellFormed(fs[i])
    ensures var ts := Traces(fs);
            && TotalCount(ts, IS_SUCCESS) + TotalCount(ts, IS_HIT) + TotalCount(ts, IS_REPLAY)
                 == TotalCount(ts, IS_INFERENCE)
            && TotalCount(ts, IS_FAILURE) == TotalFailedAttempts(fs)
  {
    hide TraceOf;
    hide WellFormed;
    hide Count;
    if fs != [] {
      var last := |fs| - 1;
      TracesAreAccounted(fs[..last]);
      RequestIsAccounted(fs[last]);
      assert Traces(fs)[..last] == Traces(fs[..last]);
    }
  }

  function SumOver(m: map<string, ProviderAggregate>, names: seq<string>, value: ProviderAggregate -> nat): nat {
    if names == [] then 0
    else
      var name := names[|names| - 1];
      SumOver(m, names[..|names| - 1], value) + if name in m then value(m[name]) else 0
  }

  const SUCCESSES: ProviderAggregate -> nat := (a: ProviderAggregate) => a.successes
  const FAILURES: ProviderAggregate -> nat := (a: ProviderAggregate) => a.failures

  /** The providers of the summary, each once. */
  ghost predicate Lists(names: seq<string>, m: map<string, ProviderAggregate>) {
    && (forall i, j :: 0 <= i < j < |names| ==> names[i] != names[j])
    && (forall p :: p in m ==> p in names)
  }

  /** Changing one entry changes the sum by as much. */
  lemma {:induction false} SumAfterUpdate(
    m: map<string, ProviderAggregate>, names: seq<string>, name: string, a: ProviderAggregate,
    value: ProviderAggregate -> nat)
    requires forall i, j :: 0 <= i < j < |names| ==> names[i] != names[j]
    requires value(NO_CALLS) == 0
    ensures SumOver(m[name := a], names, value)
         == SumOver(m, names, value)
            + if name in names then value(a) - value(if name in m then m[name] else NO_CALLS) else 0
  {
    if names != [] {
      var last := |names| - 1;
      SumAfterUpdate(m, names[..last], name, a, value);
      if name in names {
        var i :| 0 <= i < |names| && names[i] == name;
        assert i < last ==> name in names[..last] by {
          if i < last { assert names[..last][i] == name; }
        }
      }
    }
  }

  lemma {:induction false} EmptySum(names: seq<string>, value: ProviderAggregate -> nat)
    ensures SumOver(map[], names, value) == 0
  {
    if names != [] {
      EmptySum(names[..|names| - 1], value);
    }
  }

  /** The successes and failures of all providers are the successful and failed calls of the log. */
  lemma {:induction false} SumsOverProviders(limit: nat, log: seq<Record>, names: seq<string>)
    requires Lists(names, After(limit, log).providers)
    ensures SumOver(After(limit, log).providers, names, SUCCESSES) == Count(log, IS_SUCCESS)
    ensures SumOver(After(limit, log).providers, names, FAILURES) == Count(log, IS_FAILURE)
  {
    if log == [] {
      EmptySum(names, SUCCESSES);
      EmptySum(names, FAILURES);
    } else {
      var before, e := log[..|log| - 1], log[|log| - 1];
      var m := After(limit, before).providers;
      if e.ProviderCall? {
        var a := NoteCall(After(limit, before), e.provider, e.success, e.latencyMs).providers[e.provider];
        assert After(limit, log).providers == m[e.provider := a];
        assert e.provider in names;
        SumsOverProviders(limit, before, names);
        SumAfterUpdate(m, names, e.provider, a, SUCCESSES);
        SumAfterUpdate(m, names, e.provider, a, FAILURES);
      } else {
        SumsOverProviders(limit, before, names);
      }
    }
  }

  lemma WellFormedIsConserved(limit: nat, fs: seq<Finished>, log: seq<Tagged>, names: seq<string>)
    requires forall i :: 0 <= i < |fs| ==> WellFormed(fs[i])
    requires Interleaves(log, Traces(fs))
    requires Lists(names, After(limit, Records(log)).providers)
    ensures var s := After(limit, Records(log));
            && SumOver(s.providers, names, SUCCESSES) == s.completedRequests - s.cacheHits - s.cacheReplays
            && SumOver(s.providers, names, FAILURES) == TotalFailedAttempts(fs)
            && s.completedRequests == Totals(fs, ANSWERS)
            && s.cacheHits == Totals(fs, HITS)
            && s.cacheReplays == Totals(fs, REPLAYS)
            && s.fallbackCount == Totals(fs, REPORTED_FALLBACKS)
  {
    hide Interleaves;
    hide WellFormed;
    hide Traces;
    var records, ts := Records(log), Traces(fs);
    SumInterleaving(log, ts, FALLBACKS);
    TracesAreCounted(fs);
    CountInterleaving(log, ts, IS_SUCCESS);
    CountInterleaving(log, ts, IS_FAILURE);
    CountInterleaving(log, ts, IS_INFERENCE);
    CountInterleaving(log, ts, IS_HIT);
    CountInterleaving(log, ts, IS_REPLAY);
    TracesAreAccounted(fs);
    CountersCount(limit, records);
    SumsOverProviders(limit, records, names);
  }

  function AllFinished(registry: seq<Contracts.Descriptor>, cacheEnabled: bool, qs: seq<Served>): (fs: seq<Finished>)
    requires forall i :: 0 <= i < |qs| ==> Enough(registry, qs[i])
    ensures |fs| == |qs|
    ensures forall i :: 0 <= i < |qs| ==> fs[i] == FinishedOf(registry, cacheEnabled, qs[i])
  {
    seq(|qs|, i requires 0 <= i < |qs| => FinishedOf(registry, cacheEnabled, qs[i]))
  }

  /** At quiescence, however the requests interleaved and whatever they met: the successes of all providers are the
      completed requests that neither the cache nor a replay answered, and their failures are the fallbacks of the
      completed requests and the attempts of the unavailable ones. Completed are the requests that got an answer, hits
      those the cache answered, and the counted fallbacks are those that the answers report. */
  lemma TelemetryIsConserved(
    limit: nat, registry: seq<Contracts.Descriptor>, cacheEnabled: bool, qs: seq<Served>, log: seq<Tagged>,
    names: seq<string>)
    requires forall i :: 0 <= i < |qs| ==> Enough(registry, qs[i])
    requires Interleaves(log, Traces(AllFinished(registry, cacheEnabled, qs)))
    requires Lists(names, After(limit, Records(log)).providers)
    ensures var s := After(limit, Records(log));
            && SumOver(s.providers, names, SUCCESSES) == s.completedRequests - s.cacheHits - s.cacheReplays
            && SumOver(s.providers, names, FAILURES)
                 == TotalFailedAttempts(AllFinished(registry, cacheEnabled, qs))
            && s.completedRequests == Totals(AllFinished(registry, cacheEnabled, qs), ANSWERS)
            && s.cacheHits == Totals(AllFinished(registry, cacheEnabled, qs), HITS)
            && s.cacheReplays == Totals(AllFinished(registry, cacheEnabled, qs), REPLAYS)
            && s.fallbackCount == Totals(AllFinished(registry, cacheEnabled, qs), REPORTED_FALLBACKS)
  {
    hide *;
    forall i | 0 <= i < |qs| ensures WellFormed(AllFinished(registry, cacheEnabled, qs)[i]) {
      RepliesAreWellFormed(registry, cacheEnabled, qs[i]);
    }
    WellFormedIsConserved(limit, AllFinished(registry, cacheEnabled, qs), log, names);
  }
}
