/** Runtime summaries (control_plane/telemetry.py): counters, per-provider aggregates and a bounded buffer of recent
    events, all of them functions of the log of what was recorded. */
module Telemetry {
  datatype CacheStatus = Hit | Miss | Bypass | Replay

  datatype InferenceEvent = InferenceEvent(
    requestId: string, provider: string, policy: string, cacheStatus: CacheStatus, latencyMs: real, fallbackCount: int)

  /** One `record_provider_call` or `record_inference`. */
  datatype Record =
    | ProviderCall(provider: string, success: bool, latencyMs: real)
    | Inference(event: InferenceEvent)

  datatype ProviderAggregate = ProviderAggregate(calls: nat, successes: nat, failures: nat, cumulativeLatencyMs: real)

  const NO_CALLS := ProviderAggregate(0, 0, 0, 0.0)

  // ---------------------------------------------------------------------------------------------
  // Counting in a log
  // ---------------------------------------------------------------------------------------------

  function Count(log: seq<Record>, counts: Record -> bool): nat {
    if log == [] then 0
    else Count(log[..|log| - 1], counts) + if counts(log[|log| - 1]) then 1 else 0
  }

  function Sum(log: seq<Record>, value: Record -> int): int {
    if log == [] then 0 else Sum(log[..|log| - 1], value) + value(log[|log| - 1])
  }

  const IS_SUCCESS: Record -> bool := (e: Record) => e.ProviderCall? && e.success
  const IS_FAILURE: Record -> bool := (e: Record) => e.ProviderCall? && !e.success
  const IS_INFERENCE: Record -> bool := (e: Record) => e.Inference?
  const IS_HIT: Record -> bool := (e: Record) => e.Inference? && e.event.cacheStatus.Hit?
  const IS_REPLAY: Record -> bool := (e: Record) => e.Inference? && e.event.cacheStatus.Replay?
  const FALLBACKS: Record -> int := (e: Record) => if e.Inference? then e.event.fallbackCount else 0

  /** The aggregate of one provider. */
  function AggregateOf(log: seq<Record>, provider: string): ProviderAggregate {
    if log == [] then NO_CALLS
    else
      var a, e := AggregateOf(log[..|log| - 1], provider), log[|log| - 1];
      if !e.ProviderCall? || e.provider != provider then a
      else ProviderAggregate(a.calls + 1, a.successes + if e.success then 1 else 0,
                             a.failures + if e.success then 0 else 1, a.cumulativeLatencyMs + e.latencyMs)
  }

  function InferenceLatency(log: seq<Record>): real {
    if log == [] then 0.0
    else InferenceLatency(log[..|log| - 1]) + if log[|log| - 1].Inference? then log[|log| - 1].event.latencyMs else 0.0
  }

  /** All inference events, newest first. */
  function NewestFirst(log: seq<Record>): seq<InferenceEvent> {
    if log == [] then []
    else (if log[|log| - 1].Inference? then [log[|log| - 1].event] else []) + NewestFirst(log[..|log| - 1])
  }

  function Take<T>(xs: seq<T>, n: nat): seq<T> {
    if n <= |xs| then xs[..n] else xs
  }

  // ---------------------------------------------------------------------------------------------
  // What is kept
  // ---------------------------------------------------------------------------------------------

  datatype Summary = Summary(
    events: seq<InferenceEvent>,
    providers: map<string, ProviderAggregate>,
    completedRequests: nat,
    cacheHits: nat,
    cacheReplays: nat,
    fallbackCount: int,
    cumulativeLatencyMs: real)

  const EMPTY := Summary([], map[], 0, 0, 0, 0, 0.0)

  function NoteCall(s: Summary, provider: string, success: bool, latencyMs: real): Summary {
    var a := if provider in s.providers then s.providers[provider] else NO_CALLS;
    s.(providers := s.providers[provider :=
         ProviderAggregate(a.calls + 1, a.successes + if success then 1 else 0,
                           a.failures + if success then 0 else 1, a.cumulativeLatencyMs + latencyMs)])
  }

  function NoteInference(limit: nat, s: Summary, e: InferenceEvent): Summary {
    Summary(Take([e] + s.events, limit),
            s.providers,
            s.completedRequests + 1,
            s.cacheHits + if e.cacheStatus.Hit? then 1 else 0,
            s.cacheReplays + if e.cacheStatus.Replay? then 1 else 0,
            s.fallbackCount + e.fallbackCount,
            s.cumulativeLatencyMs + e.latencyMs)
  }

  function Note(limit: nat, s: Summary, e: Record): Summary {
    match e
    case ProviderCall(provider, success, latencyMs) => NoteCall(s, provider, success, latencyMs)
    case Inference(event) => NoteInference(limit, s, event)
  }

  /** The summary after a log. */
  function After(limit: nat, log: seq<Record>): Summary {
    if log == [] then EMPTY else Note(limit, After(limit, log[..|log| - 1]), log[|log| - 1])
  }

  lemma AfterOneMore(limit: nat, log: seq<Record>, e: Record)
    ensures After(limit, log + [e]) == Note(limit, After(limit, log), e)
  {
    assert (log + [e])[..|log|] == log;
  }

  class Telemetry {
    const recentEventLimit: nat
    var events: seq<InferenceEvent>
    var providers: map<string, ProviderAggregate>
    var completedRequests: nat
    var cacheHits: nat
    var cacheReplays: nat
    var fallbackCount: int
    var cumulativeLatencyMs: real
    ghost var log: seq<Record>

    ghost function Value(): Summary
      reads this
    {
      Summary(events, providers, completedRequests, cacheHits, cacheReplays, fallbackCount, cumulativeLatencyMs)
    }

    ghost predicate Valid()
      reads this
    {
      Value() == After(recentEventLimit, log)
    }

    constructor (recentEventLimit: nat)
      ensures Valid() && log == [] && this.recentEventLimit == recentEventLimit
    {
      this.recentEventLimit := recentEventLimit;
      events, providers := [], map[];
      completedRequests, cacheHits, cacheReplays, fallbackCount, cumulativeLatencyMs := 0, 0, 0, 0, 0.0;
      log := [];
    }

    method RecordProviderCall(provider: string, success: bool, latencyMs: real)
      requires Valid()
      modifies this
      ensures Valid() && log == old(log) + [ProviderCall(provider, success, latencyMs)]
    {
      var aggregate := if provider in providers then providers[provider] else NO_CALLS;
      aggregate := aggregate.(
        calls := aggregate.calls + 1, cumulativeLatencyMs := aggregate.cumulativeLatencyMs + latencyMs);
      if success {
        aggregate := aggregate.(successes := aggregate.successes + 1);
      } else {
        aggregate := aggregate.(failures := aggregate.failures + 1);
      }
      providers := providers[provider := aggregate];
      assert Value() == NoteCall(old(Value()), provider, success, latencyMs);
      AfterOneMore(recentEventLimit, log, ProviderCall(provider, success, latencyMs));
      log := log + [ProviderCall(provider, success, latencyMs)];
    }

    method RecordInference(event: InferenceEvent)
      requires Valid()
      modifies this
      ensures Valid() && log == old(log) + [Inference(event)]
    {
      hide After;
      hide Take;
      completedRequests := completedRequests + 1;
      cumulativeLatencyMs := cumulativeLatencyMs + event.latencyMs;
      fallbackCount := fallbackCount + event.fallbackCount;
      if event.cacheStatus == Hit {
        cacheHits := cacheHits + 1;
      } else if event.cacheStatus == Replay {
        cacheReplays := cacheReplays + 1;
      }
      events := Take([event] + events, recentEventLimit);
      assert Value() == NoteInference(recentEventLimit, old(Value()), event);
      AfterOneMore(recentEventLimit, log, Inference(event));
      log := log + [Inference(event)];
    }
  }

  // ---------------------------------------------------------------------------------------------
  // What the summary says about the log
  // ---------------------------------------------------------------------------------------------

  lemma {:induction false} CountersCount(limit: nat, log: seq<Record>)
    ensures var s := After(limit, log);
            && s.completedRequests == Count(log, IS_INFERENCE)
            && s.cacheHits == Count(log, IS_HIT)
            && s.cacheReplays == Count(log, IS_REPLAY)
            && s.fallbackCount == Sum(log, FALLBACKS)
            && s.cumulativeLatencyMs == InferenceLatency(log)
  {
    if log != [] {
      CountersCount(limit, log[..|log| - 1]);
    }
  }

  /** The bounded buffer: however many events were recorded, it holds the latest ones, newest first. */
  lemma {:induction false} BufferHoldsLatest(limit: nat, log: seq<Record>)
    ensures After(limit, log).events == Take(NewestFirst(log), limit)
  {
    if log != [] {
      BufferHoldsLatest(limit, log[..|log| - 1]);
      var all := NewestFirst(log[..|log| - 1]);
      var e := log[|log| - 1];
      TakeOneMore(e, all, limit);
    }
  }

  lemma TakeOneMore(e: Record, all: seq<InferenceEvent>, limit: nat)
    ensures e.Inference? ==> Take([e.event] + Take(all, limit), limit) == Take([e.event] + all, limit)
  {
  }

  /** Every provider's aggregate counts exactly its own calls, and every call is a success or a failure. */
  lemma {:induction false} AggregatesAggregate(limit: nat, log: seq<Record>, provider: string)
    ensures var s := After(limit, log);
            && (provider in s.providers <==> AggregateOf(log, provider).calls > 0)
            && (if provider in s.providers then s.providers[provider] else NO_CALLS) == AggregateOf(log, provider)
    ensures var a := AggregateOf(log, provider); a.calls == a.successes + a.failures
    ensures AggregateOf(log, provider).calls == 0 ==> AggregateOf(log, provider) == NO_CALLS
  {
    if log != [] {
      AggregatesAggregate(limit, log[..|log| - 1], provider);
    }
  }
}
