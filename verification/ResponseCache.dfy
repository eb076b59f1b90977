/** The exact-response cache (control_plane/cache.py:93-148) on the backend it shares with the idempotency store.

    Hashing and JSON are taken to be injective, so a key is its material and a value is what was encoded. */
module ResponseCache {
  import opened Contracts
  import opened KeyValue

  /** What the cache key is made of (cache.py:105-115). */
  datatype Material = Material(
    provider: string, model: string, messages: seq<Message>, temperature: real, maxTokens: nat)

  function MaterialOf(r: Request, provider: string): Material {
    Material(provider, r.model, r.messages, r.temperature, r.maxTokens)
  }

  /** The two key spaces differ in their prefix. */
  datatype Key = ResponseKey(material: Material) | IdempotencyKey(raw: string)

  /** What a backend value decodes to; anything else in the backend is unreadable. */
  datatype Payload<R> =
    | ResultPayload(result: ProviderResult)
    | RecordPayload(fingerprint: Request, response: R)
    | Unreadable

  function Decoded<R>(value: Option<Payload<R>>): Option<ProviderResult> {
    if value.Some? && value.value.ResultPayload? then Some(value.value.result) else None
  }

  class ExactResponseCache<R> {
    const backend: ResilientKeyValue<Key, Payload<R>>
    const statistics: CacheStatistics
    const ttlSeconds: int

    ghost predicate Valid() {
      backend.statistics == statistics
    }

    constructor (store: MemoryKeyValue<Key, Payload<R>>, ttlSeconds: int, statistics: CacheStatistics)
      ensures Valid() && backend.backend == store && this.ttlSeconds == ttlSeconds && this.statistics == statistics
    {
      backend := new ResilientKeyValue(store, statistics);
      this.ttlSeconds := ttlSeconds;
      this.statistics := statistics;
    }

    /** Every lookup is a hit or a miss; an unreadable value is a miss and a backend error. */
    method Get(r: Request, provider: string, now: real, fails: bool) returns (result: Option<ProviderResult>)
      requires Valid()
      modifies backend.backend, statistics`backendErrors, statistics`hits, statistics`misses
      ensures var lookup := Read(ResponseKey(MaterialOf(r, provider)), now, fails);
              var (values, found) := Step(old(backend.backend.values), lookup);
              && backend.backend.values == values
              && result == Decoded(found)
              && statistics.backendErrors == old(statistics.backendErrors)
                   + if fails || (found.Some? && !found.value.ResultPayload?) then 1 else 0
      ensures statistics.hits == old(statistics.hits) + if result.Some? then 1 else 0
      ensures statistics.misses == old(statistics.misses) + if result.None? then 1 else 0
    {
      var value := backend.Lookup(ResponseKey(MaterialOf(r, provider)), now, fails);
      if value.None? {
        statistics.misses := statistics.misses + 1;
        return None;
      }
      if !value.value.ResultPayload? {
        statistics.backendErrors := statistics.backendErrors + 1;
        statistics.misses := statistics.misses + 1;
        return None;
      }
      statistics.hits := statistics.hits + 1;
      return Some(value.value.result);
    }

    /** `writes` counts the attempts, also those the backend lost. */
    method Put(r: Request, provider: string, result: ProviderResult, now: real, fate: Fate)
      requires Valid()
      modifies backend.backend, statistics`backendErrors, statistics`writes
      ensures backend.backend.values
           == Step(old(backend.backend.values),
                   Write(ResponseKey(MaterialOf(r, provider)), ResultPayload(result), ttlSeconds, now, fate)).0
      ensures statistics.writes == old(statistics.writes) + 1
      ensures statistics.backendErrors == old(statistics.backendErrors) + if fate.Stored? then 0 else 1
    {
      backend.Store(ResponseKey(MaterialOf(r, provider)), ResultPayload(result), ttlSeconds, now, fate);
      statistics.writes := statistics.writes + 1;
    }
  }

  // ---------------------------------------------------------------------------------------------
  // Every hit is genuine
  // ---------------------------------------------------------------------------------------------

  /** What the gateway does to the shared backend, at any interleaving of requests.  The response cache is only
      filled with a result the provider has just produced (main.py:363, 371-379). */
  datatype Event<R> =
    | CacheLookup(provider: string, request: Request, now: real, fails: bool)
    | Produced(provider: string, request: Request, result: ProviderResult, now: real, fate: Fate)
    | RecordLookup(raw: string, now: real, fails: bool)
    | RecordStored(raw: string, request: Request, response: R, ttlSeconds: int, now: real, fate: Fate)

  function OpOf<R>(ttlSeconds: int, e: Event<R>): Op<Key, Payload<R>> {
    match e
    case CacheLookup(provider, r, now, fails) => Read(ResponseKey(MaterialOf(r, provider)), now, fails)
    case Produced(provider, r, result, now, fate) =>
      Write(ResponseKey(MaterialOf(r, provider)), ResultPayload(result), ttlSeconds, now, fate)
    case RecordLookup(raw, now, fails) => Read(IdempotencyKey(raw), now, fails)
    case RecordStored(raw, r, response, ttl, now, fate) =>
      Write(IdempotencyKey(raw), RecordPayload(r, response), ttl, now, fate)
  }

  function Ops<R>(ttlSeconds: int, es: seq<Event<R>>): (ops: seq<Op<Key, Payload<R>>>)
    ensures |ops| == |es| && forall i :: 0 <= i < |es| ==> ops[i] == OpOf(ttlSeconds, es[i])
  {
    seq(|es|, i requires 0 <= i < |es| => OpOf(ttlSeconds, es[i]))
  }

  /** What the lookup at position k finds. */
  function Found<R>(ttlSeconds: int, es: seq<Event<R>>, k: nat): Option<ProviderResult>
    requires k < |es|
  {
    Decoded(Answer(Ops(ttlSeconds, es), k))
  }

  /** Over any history, swallowed backend failures included, a hit is a result that the same provider really
      produced, less than the time to live ago, for the same model, messages, temperature and max_tokens; and it is
      the latest such result that the backend kept. */
  lemma HitIsGenuine<R>(ttlSeconds: int, es: seq<Event<R>>, k: nat) returns (i: nat)
    requires k < |es| && es[k].CacheLookup?
    requires forall i, j :: 0 <= i < j < |es| ==> es[i].now <= es[j].now
    requires Found(ttlSeconds, es, k).Some?
    ensures i < k && es[i].Produced?
    ensures es[i].provider == es[k].provider && es[i].result == Found(ttlSeconds, es, k).value
    ensures es[i].request.model == es[k].request.model && es[i].request.messages == es[k].request.messages
    ensures es[i].request.temperature == es[k].request.temperature
    ensures es[i].request.maxTokens == es[k].request.maxTokens
    ensures es[k].now < es[i].now + ttlSeconds as real
    ensures forall j :: i < j < k && es[j].Produced? && !es[j].fate.Lost? ==>
              MaterialOf(es[j].request, es[j].provider) != MaterialOf(es[k].request, es[k].provider)
  {
    var ops := Ops(ttlSeconds, es);
    assert forall j :: 0 <= j < |es| ==> ops[j].now == es[j].now;
    i := ReadValueWasWritten(ops, k);
    assert ops[i] == OpOf(ttlSeconds, es[i]);
    forall j | i < j < k && es[j].Produced? && !es[j].fate.Lost?
      ensures MaterialOf(es[j].request, es[j].provider) != MaterialOf(es[k].request, es[k].provider)
    {
      assert !IsWriteTo(ops, j, ops[k].key);
    }
  }

  /** Conversely a result that was produced and kept is found again by the same provider and material until its
      time to live has elapsed or a later one replaces it. */
  lemma KeptResultIsFound<R>(ttlSeconds: int, es: seq<Event<R>>, i: nat, k: nat)
    requires i < k < |es| && es[i].Produced? && es[k].CacheLookup?
    requires forall a, b :: 0 <= a < b < |es| ==> es[a].now <= es[b].now
    requires !es[i].fate.Lost? && !es[k].fails && es[k].now < es[i].now + ttlSeconds as real
    requires MaterialOf(es[i].request, es[i].provider) == MaterialOf(es[k].request, es[k].provider)
    requires forall j :: i < j < k && es[j].Produced? && !es[j].fate.Lost? ==>
               MaterialOf(es[j].request, es[j].provider) != MaterialOf(es[k].request, es[k].provider)
    ensures Found(ttlSeconds, es, k) == Some(es[i].result)
  {
    var ops := Ops(ttlSeconds, es);
    assert forall j :: 0 <= j < |es| ==> ops[j].now == es[j].now;
    assert ops[k] == OpOf(ttlSeconds, es[k]) && ops[i] == OpOf(ttlSeconds, es[i]);
    LazyStoreRefinesTimedMap(ops, k);
    forall j | i < j < k
      ensures !IsWriteTo(ops[..k], j, ops[k].key)
    {
      assert ops[..k][j] == OpOf(ttlSeconds, es[j]);
    }
    assert IsWriteTo(ops[..k], i, ops[k].key);
  }
}
