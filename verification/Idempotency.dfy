/** The idempotency store (control_plane/cache.py:151-219): a stored response is given back to a repeated request, and
    a reused key with another request is a conflict.  Replays proves what that means for runs of the gateway. */
module Idempotency {
  import opened Contracts
  import opened KeyValue
  import opened ResponseCache

  function RawKey(client: string, key: string): string {
    client + ":" + key
  }

  datatype Lookup<+R> = NoRecord | Recorded(response: R) | Conflicting

  /** What a backend value means for a request that carries its key. */
  function Judge<R>(value: Option<Payload<R>>, r: Request): Lookup<R> {
    if value.None? || !value.value.RecordPayload? then NoRecord
    else if value.value.fingerprint != r then Conflicting
    else Recorded(value.value.response)
  }

  class IdempotencyStore<R> {
    const backend: ResilientKeyValue<Key, Payload<R>>
    const statistics: CacheStatistics
    const ttlSeconds: int

    ghost predicate Valid() {
      backend.statistics == statistics
    }

    constructor (store: MemoryKeyValue<Key, Payload<R>>, ttlSeconds: int, statistics: CacheStatistics)
      ensures Valid() && backend.backend == store && this.ttlSeconds == ttlSeconds && this.statistics == statistics
    {
      backend := new ResilientKeyValue(store, statistics);
      this.ttlSeconds := ttlSeconds;
      this.statistics := statistics;
    }

    method Replay(client: string, key: string, r: Request, now: real, fails: bool) returns (result: Lookup<R>)
      requires Valid()
      modifies backend.backend
      modifies statistics`backendErrors, statistics`idempotentReplays, statistics`idempotencyConflicts
      ensures var lookup := Read(IdempotencyKey(RawKey(client, key)), now, fails);
              var (values, found) := Step(old(backend.backend.values), lookup);
              && backend.backend.values == values
              && result == Judge(found, r)
              && statistics.backendErrors == old(statistics.backendErrors)
                   + if fails || (found.Some? && !found.value.RecordPayload?) then 1 else 0
      ensures statistics.idempotentReplays == old(statistics.idempotentReplays) + if result.Recorded? then 1 else 0
      ensures statistics.idempotencyConflicts
           == old(statistics.idempotencyConflicts) + if result.Conflicting? then 1 else 0
    {
      var value := backend.Lookup(IdempotencyKey(RawKey(client, key)), now, fails);
      if value.None? {
        return NoRecord;
      }
      if !value.value.RecordPayload? {
        statistics.backendErrors := statistics.backendErrors + 1;
        return NoRecord;
      }
      if value.value.fingerprint != r {
        statistics.idempotencyConflicts := statistics.idempotencyConflicts + 1;
        return Conflicting;
      }
      statistics.idempotentReplays := statistics.idempotentReplays + 1;
      return Recorded(value.value.response);
    }

    method Remember(client: string, key: string, r: Request, response: R, now: real, fate: Fate)
      requires Valid()
      modifies backend.backend, statistics`backendErrors
      ensures backend.backend.values
           == Step(old(backend.backend.values),
                   Write(IdempotencyKey(RawKey(client, key)), RecordPayload(r, response), ttlSeconds, now, fate)).0
      ensures statistics.backendErrors == old(statistics.backendErrors) + if fate.Stored? then 0 else 1
    {
      backend.Store(IdempotencyKey(RawKey(client, key)), RecordPayload(r, response), ttlSeconds, now, fate);
    }
  }

  // ---------------------------------------------------------------------------------------------
  // Which client and key pairs share a record
  // ---------------------------------------------------------------------------------------------

  /** The boundary between client and key can be read at another colon. */
  ghost predicate SplitsElsewhere(client: string, key: string, client': string, key': string) {
    exists middle :: client' == client + ":" + middle && key == middle + ":" + key'
  }

  lemma ShiftedSplit(client: string, key: string, client': string, key': string)
    requires RawKey(client, key) == RawKey(client', key') && |client| < |client'|
    ensures SplitsElsewhere(client, key, client', key')
  {
    var raw := RawKey(client, key);
    var middle := client'[|client| + 1..];
    assert raw[..|client|] == client && raw[..|client'|] == client';
    assert raw[|client|] == ':' && client'[|client|] == raw[|client|];
    assert client' == client + ":" + middle;
    assert raw[|client| + 1..] == key;
    assert raw[|client| + 1..] == middle + ":" + key';
  }

  /** Two pairs share a record exactly when they are equal or one can be read as the other. */
  lemma SharedRecordExactlyWhen(client: string, key: string, client': string, key': string)
    ensures RawKey(client, key) == RawKey(client', key')
       <==> (client == client' && key == key')
            || SplitsElsewhere(client, key, client', key') || SplitsElsewhere(client', key', client, key)
  {
    if RawKey(client, key) == RawKey(client', key') {
      if |client| < |client'| {
        ShiftedSplit(client, key, client', key');
      } else if |client'| < |client| {
        ShiftedSplit(client', key', client, key);
      } else {
        assert RawKey(client, key)[..|client|] == client && RawKey(client', key')[..|client'|] == client';
        assert RawKey(client, key)[|client| + 1..] == key && RawKey(client', key')[|client'| + 1..] == key';
      }
    }
    if SplitsElsewhere(client, key, client', key') {
      var middle :| client' == client + ":" + middle && key == middle + ":" + key';
      assert RawKey(client, key) == client + ":" + middle + ":" + key';
    }
    if SplitsElsewhere(client', key', client, key) {
      var middle :| client == client' + ":" + middle && key' == middle + ":" + key;
      assert RawKey(client', key') == client' + ":" + middle + ":" + key;
    }
  }

  lemma SplitNeedsColon(client: string, key: string, client': string, key': string)
    requires SplitsElsewhere(client, key, client', key')
    ensures ':' in client'
  {
    assert client'[|client|] == ':';
  }

  /** So clients without a colon in their id never share records. */
  lemma ColonFreeClientsAreSeparate(client: string, key: string, client': string, key': string)
    requires ':' !in client && ':' !in client'
    ensures RawKey(client, key) == RawKey(client', key') <==> client == client' && key == key'
  {
    SharedRecordExactlyWhen(client, key, client', key');
    if SplitsElsewhere(client, key, client', key') {
      SplitNeedsColon(client, key, client', key');
    }
    if SplitsElsewhere(client', key', client, key) {
      SplitNeedsColon(client', key', client, key);
    }
  }

  /** With colons they can. */
  lemma ClientsWithColonsCanCollide()
    ensures RawKey("a:b", "c") == RawKey("a", "b:c")
  {
  }
}
