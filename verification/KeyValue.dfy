/** The cache backend (control_plane/cache.py:21-90): a key-value store with time to live, and the wrapper that
    swallows its failures.

    The in-memory store expires lazily: an entry is only dropped when somebody asks for it too late.  The
    specification has no store at all, only the history of writes. */
module KeyValue {
  import opened Contracts

  datatype Entry<+V> = Entry(expiresAt: real, value: V)

  function Get<K, V>(m: map<K, Entry<V>>, key: K, now: real): (map<K, Entry<V>>, Option<V>) {
    if key !in m then (m, None)
    else if m[key].expiresAt <= now then (m - {key}, None)
    else (m, Some(m[key].value))
  }

  function Set<K, V>(m: map<K, Entry<V>>, key: K, value: V, ttlSeconds: int, now: real): map<K, Entry<V>> {
    m[key := Entry(now + ttlSeconds as real, value)]
  }

  class MemoryKeyValue<K(==), V> {
    var values: map<K, Entry<V>>

    constructor ()
      ensures values == map[]
    {
      values := map[];
    }

    method Lookup(key: K, now: real) returns (value: Option<V>)
      modifies this
      ensures (values, value) == Get(old(values), key, now)
    {
      if key !in values {
        return None;
      }
      var item := values[key];
      if item.expiresAt <= now {
        values := values - {key};
        return None;
      }
      return Some(item.value);
    }

    method Store(key: K, value: V, ttlSeconds: int, now: real)
      modifies this
      ensures values == Set(old(values), key, value, ttlSeconds, now)
    {
      values := values[key := Entry(now + ttlSeconds as real, value)];
    }
  }

  class CacheStatistics {
    var hits: nat
    var misses: nat
    var writes: nat
    var backendErrors: nat
    var idempotentReplays: nat
    var idempotencyConflicts: nat

    constructor ()
      ensures hits == misses == writes == backendErrors == idempotentReplays == idempotencyConflicts == 0
    {
      hits, misses, writes, backendErrors, idempotentReplays, idempotencyConflicts := 0, 0, 0, 0, 0, 0;
    }
  }

  /** How a write to the backend ends.  A failing backend may have stored the value all the same. */
  datatype Fate = Stored | Lost | StoredThenFailed

  /** The fail-open wrapper.  Whether the backend raises is decided from outside. */
  class ResilientKeyValue<K(==), V> {
    const backend: MemoryKeyValue<K, V>
    const statistics: CacheStatistics

    constructor (backend: MemoryKeyValue<K, V>, statistics: CacheStatistics)
      ensures this.backend == backend && this.statistics == statistics
    {
      this.backend := backend;
      this.statistics := statistics;
    }

    method Lookup(key: K, now: real, fails: bool) returns (value: Option<V>)
      modifies backend, statistics`backendErrors
      ensures fails ==> value.None? && backend.values == old(backend.values)
      ensures !fails ==> (backend.values, value) == Get(old(backend.values), key, now)
      ensures statistics.backendErrors == old(statistics.backendErrors) + if fails then 1 else 0
    {
      if fails {
        statistics.backendErrors := statistics.backendErrors + 1;
        return None;
      }
      value := backend.Lookup(key, now);
    }

    method Store(key: K, value: V, ttlSeconds: int, now: real, fate: Fate)
      modifies backend, statistics`backendErrors
      ensures backend.values == if fate.Lost? then old(backend.values)
                                else Set(old(backend.values), key, value, ttlSeconds, now)
      ensures statistics.backendErrors == old(statistics.backendErrors) + if fate.Stored? then 0 else 1
    {
      if fate != Lost {
        backend.Store(key, value, ttlSeconds, now);
      }
      if fate != Stored {
        statistics.backendErrors := statistics.backendErrors + 1;
      }
    }
  }

  // ---------------------------------------------------------------------------------------------
  // Runs
  // ---------------------------------------------------------------------------------------------

  datatype Op<K, V> =
    | Read(key: K, now: real, fails: bool)
    | Write(key: K, value: V, ttlSeconds: int, now: real, fate: Fate)

  /** The clock never goes back. */
  ghost predicate Monotone<K, V>(ops: seq<Op<K, V>>) {
    forall i, j :: 0 <= i < j < |ops| ==> ops[i].now <= ops[j].now
  }

  function Step<K, V>(m: map<K, Entry<V>>, op: Op<K, V>): (map<K, Entry<V>>, Option<V>) {
    match op
    case Read(key, now, fails) => if fails then (m, None) else Get(m, key, now)
    case Write(key, value, ttlSeconds, now, fate) =>
      (if fate.Lost? then m else Set(m, key, value, ttlSeconds, now), None)
  }

  /** The store after a run that started empty. */
  function Run<K, V>(ops: seq<Op<K, V>>): map<K, Entry<V>> {
    if ops == [] then map[]
    else Step(Run(ops[..|ops| - 1]), ops[|ops| - 1]).0
  }

  /** What the k-th operation of a run answers. */
  function Answer<K(==), V>(ops: seq<Op<K, V>>, k: nat): Option<V>
    requires k < |ops|
  {
    Step(Run(ops[..k]), ops[k]).1
  }

  /** The latest write to a key that took effect. */
  function LatestWrite<K(==), V>(ops: seq<Op<K, V>>, key: K): (i: Option<nat>)
    ensures i.Some? ==> i.value < |ops| && IsWriteTo(ops, i.value, key)
    ensures forall j :: (if i.Some? then i.value + 1 else 0) <= j < |ops| ==> !IsWriteTo(ops, j, key)
  {
    if ops == [] then None
    else
      var last := |ops| - 1;
      if IsWriteTo(ops, last, key) then Some(last)
      else
        var i := LatestWrite(ops[..last], key);
        assert forall j :: 0 <= j < last ==> IsWriteTo(ops[..last], j, key) == IsWriteTo(ops, j, key);
        i
  }

  predicate IsWriteTo<K(==), V>(ops: seq<Op<K, V>>, i: nat, key: K)
    requires i < |ops|
  {
    ops[i].Write? && ops[i].key == key && !ops[i].fate.Lost?
  }

  /** The timed map: what a key holds is what was last written, until its time to live has elapsed. */
  function TimedGet<K(==), V>(ops: seq<Op<K, V>>, key: K, now: real): Option<V> {
    match LatestWrite(ops, key)
    case None => None
    case Some(i) => if now < Expiry(ops[i]) then Some(ops[i].value) else None
  }

  function Expiry<K, V>(w: Op<K, V>): real
    requires w.Write?
  {
    w.now + w.ttlSeconds as real
  }

  /** What lazy deletion leaves behind: entries are the latest writes, and what is missing has expired. */
  ghost predicate Reflects<K(!new), V>(m: map<K, Entry<V>>, ops: seq<Op<K, V>>, now: real) {
    forall key ::
      match LatestWrite(ops, key)
      case None => key !in m
      case Some(i) => if key in m then m[key] == Entry(Expiry(ops[i]), ops[i].value) else Expiry(ops[i]) <= now
  }

  lemma LatestAfter<K, V>(ops: seq<Op<K, V>>, op: Op<K, V>, key: K)
    ensures LatestWrite(ops + [op], key)
         == if op.Write? && op.key == key && !op.fate.Lost? then Some(|ops|) else LatestWrite(ops, key)
  {
    assert (ops + [op])[..|ops|] == ops;
  }

  lemma StepReflects<K(!new), V>(m: map<K, Entry<V>>, ops: seq<Op<K, V>>, before: real, op: Op<K, V>)
    requires Reflects(m, ops, before) && before <= op.now
    ensures Reflects(Step(m, op).0, ops + [op], op.now)
    ensures op.Read? ==> Step(m, op).1 == if op.fails then None else TimedGet(ops, op.key, op.now)
  {
    var m' := Step(m, op).0;
    forall key
      ensures match LatestWrite(ops + [op], key)
              case None => key !in m'
              case Some(i) =>
                if key in m' then m'[key] == Entry(Expiry((ops + [op])[i]), (ops + [op])[i].value)
                else Expiry((ops + [op])[i]) <= op.now
    {
      LatestAfter(ops, op, key);
      assert match LatestWrite(ops, key)
             case None => key !in m
             case Some(i) =>
               if key in m then m[key] == Entry(Expiry(ops[i]), ops[i].value) else Expiry(ops[i]) <= before;
    }
  }

  lemma {:induction false} RunReflects<K(!new), V>(ops: seq<Op<K, V>>)
    requires Monotone(ops) && ops != []
    ensures Reflects(Run(ops), ops, ops[|ops| - 1].now)
  {
    var last := |ops| - 1;
    assert ops[..last] + [ops[last]] == ops;
    if last == 0 {
      StepReflects(map[], [], ops[last].now, ops[last]);
    } else {
      RunReflects(ops[..last]);
      StepReflects(Run(ops[..last]), ops[..last], ops[last - 1].now, ops[last]);
    }
  }

  /** The lazy store refines the timed map: whatever was read or written before, every read that the backend
      survives answers what the history of writes says, so physical deletion cannot be observed. */
  lemma LazyStoreRefinesTimedMap<K(!new), V>(ops: seq<Op<K, V>>, k: nat)
    requires Monotone(ops) && k < |ops| && ops[k].Read?
    ensures Answer(ops, k) == if ops[k].fails then None else TimedGet(ops[..k], ops[k].key, ops[k].now)
  {
    if k == 0 {
      StepReflects(map[], ops[..0], ops[0].now, ops[0]);
    } else {
      RunReflects(ops[..k]);
      StepReflects(Run(ops[..k]), ops[..k], ops[k - 1].now, ops[k]);
    }
  }

  /** Every value read was written under that key, took effect, has not been overwritten, and is within its time. */
  lemma ReadValueWasWritten<K(!new), V>(ops: seq<Op<K, V>>, k: nat) returns (i: nat)
    requires Monotone(ops) && k < |ops| && ops[k].Read? && Answer(ops, k).Some?
    ensures i < k && IsWriteTo(ops, i, ops[k].key)
    ensures ops[i].value == Answer(ops, k).value && ops[k].now < Expiry(ops[i])
    ensures forall j :: i < j < k ==> !IsWriteTo(ops, j, ops[k].key)
  {
    LazyStoreRefinesTimedMap(ops, k);
    i := LatestWrite(ops[..k], ops[k].key).value;
    assert forall j :: 0 <= j < k ==> IsWriteTo(ops[..k], j, ops[k].key) == IsWriteTo(ops, j, ops[k].key);
  }
}
