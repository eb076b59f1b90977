/** When recovery works, exactly.  Runtime proves what follows from the refill condition; here it is shown to be
    necessary as well, by driving an arbitrary configuration into the bad state. */
module Recovery {
  import Breaker
  import Bucket
  import opened Runtime

  // ---------------------------------------------------------------------------------------------
  // Runs
  // ---------------------------------------------------------------------------------------------

  /** Some run takes one state to another. */
  ghost predicate Leads(c: Config, s: State, s': State) {
    exists events :: ValidRun(c, s, events) && Execute(c, s, events) == s'
  }

  lemma {:induction false} RunsCompose(c: Config, s: State, one: seq<Event>, two: seq<Event>)
    requires ValidRun(c, s, one) && ValidRun(c, Execute(c, s, one), two)
    ensures ValidRun(c, s, one + two) && Execute(c, s, one + two) == Execute(c, Execute(c, s, one), two)
    decreases |one|
  {
    if one == [] {
      assert one + two == two;
    } else {
      RunsCompose(c, Step(c, s, one[0]), one[1..], two);
      assert (one + two)[1..] == one[1..] + two;
    }
  }

  lemma LeadsTransitively(c: Config, s: State, s': State, s'': State)
    requires Leads(c, s, s') && Leads(c, s', s'')
    ensures Leads(c, s, s'')
  {
    var one :| ValidRun(c, s, one) && Execute(c, s, one) == s';
    var two :| ValidRun(c, s', two) && Execute(c, s', two) == s'';
    RunsCompose(c, s, one, two);
  }

  lemma LeadsByStep(c: Config, s: State, e: Event)
    requires Enabled(c, s, e)
    ensures Leads(c, s, Step(c, s, e))
  {
    var events := [e];
    assert events[1..] == [];
    assert Execute(c, s, events) == Execute(c, Step(c, s, e), events[1..]) == Step(c, s, e);
    assert ValidRun(c, Step(c, s, e), events[1..]);
    assert ValidRun(c, s, events) && Execute(c, s, events) == Step(c, s, e);
  }

  lemma LeadsToSelf(c: Config, s: State)
    ensures Leads(c, s, s)
  {
    assert ValidRun(c, s, []) && Execute(c, s, []) == s;
  }

  // ---------------------------------------------------------------------------------------------
  // Driving the machine
  // ---------------------------------------------------------------------------------------------

  /** Settings that let a provider be called at all. */
  predicate Usable(c: Config) {
    && c.bucket.rate > 0.0
    && c.bucket.capacity >= 1.0
    && c.maxConcurrency >= 1
    && c.deadline >= 0.0
  }

  /** Closed, idle and up to date. */
  ghost predicate Quiet(c: Config, s: State) {
    && s.breaker.circuit.Closed?
    && s.breaker.failures < Breaker.EffectiveThreshold(c.breaker)
    && s.inFlight == map[]
    && s.freeSlots == c.maxConcurrency
    && s.bucket.updatedAt == s.now
    && 0.0 <= s.bucket.tokens <= c.bucket.capacity
  }

  lemma InitIsQuiet(c: Config, start: real)
    requires Usable(c)
    ensures Quiet(c, Init(c, start))
  {
  }

  /** One call, admitted and finished at the same instant. */
  lemma Round(c: Config, s: State, t: real, outcome: Outcome) returns (s': State)
    requires Usable(c) && Quiet(c, s) && s.now <= t
    requires Bucket.Acquire(c.bucket, s.bucket, t).1
    ensures Leads(c, s, s')
    ensures s'.now == t && s'.inFlight == map[] && s'.freeSlots == s.freeSlots
    ensures s'.bucket == Bucket.Acquire(c.bucket, s.bucket, t).0
    ensures s'.breaker == if outcome.Answered? then Breaker.RecordSuccess(s.breaker)
                          else Breaker.RecordFailure(c.breaker, s.breaker, t)
  {
    var s1 := Step(c, s, Invoke(t, t));
    assert s1.inFlight == map[s.nextId := Call(t, false)];
    LeadsByStep(c, s, Invoke(t, t));
    LeadsByStep(c, s1, Return(s.nextId, outcome, t));
    s' := Step(c, s1, Return(s.nextId, outcome, t));
    assert s'.inFlight == map[];
    LeadsTransitively(c, s, s1, s');
  }

  lemma WaitThenRefill(rate: real, amount: real)
    requires rate > 0.0
    ensures amount / rate * rate == amount
    ensures amount >= 0.0 ==> amount / rate >= 0.0
  {
    var wait := amount / rate;
    assert wait * rate == amount;
    if amount >= 0.0 && wait < 0.0 {
      Bucket.Growing(rate, -wait);
      assert false;
    }
  }

  /** Successful calls use up the whole tokens of the bucket. */
  lemma {:induction false} Drain(c: Config, s: State) returns (s': State)
    requires Usable(c) && Quiet(c, s)
    ensures Leads(c, s, s') && Quiet(c, s') && s'.bucket.tokens < 1.0
    decreases s.bucket.tokens.Floor
  {
    if s.bucket.tokens < 1.0 {
      s' := s;
      LeadsToSelf(c, s);
    } else {
      assert Bucket.Refill(c.bucket, s.bucket, s.now) == s.bucket;
      var s1 := Round(c, s, s.now, Answered);
      s' := Drain(c, s1);
      LeadsTransitively(c, s, s1, s');
    }
  }

  /** Failing calls, each made at the instant the bucket reaches one token, open the circuit with an empty bucket. */
  lemma {:induction false} FailUntilOpen(c: Config, s: State) returns (s': State)
    requires Usable(c) && Quiet(c, s) && s.bucket.tokens < 1.0
    ensures Leads(c, s, s')
    ensures s'.breaker.circuit.Open? && s'.inFlight == map[]
    ensures s'.bucket == Bucket.State(0.0, s'.now) && s'.breaker.openedAt == s'.now
    decreases Breaker.EffectiveThreshold(c.breaker) - s.breaker.failures
  {
    var missing := 1.0 - s.bucket.tokens;
    WaitThenRefill(c.bucket.rate, missing);
    var t := s.now + missing / c.bucket.rate;
    assert Bucket.Max(0.0, t - s.bucket.updatedAt) == missing / c.bucket.rate;
    assert Bucket.Refill(c.bucket, s.bucket, t) == Bucket.State(1.0, t);
    var s1 := Round(c, s, t, CallFailed);
    assert s1.bucket == Bucket.State(0.0, t);
    if s1.breaker.circuit.Open? {
      s' := s1;
    } else {
      s' := FailUntilOpen(c, s1);
      LeadsTransitively(c, s, s1, s');
    }
  }

  // ---------------------------------------------------------------------------------------------
  // The refill condition
  // ---------------------------------------------------------------------------------------------

  /** Half-open with nobody left to report an outcome. */
  ghost predicate Wedged(s: State) {
    s.breaker.circuit.HalfOpen? && s.breaker.probeInFlight && s.inFlight == map[]
  }

  /** A wedged runtime rejects every call for ever: any continuation only moves the clock. */
  lemma {:induction false} WedgedForever(c: Config, s: State, events: seq<Event>)
    requires Wedged(s) && ValidRun(c, s, events)
    ensures Execute(c, s, events) == s.(now := Execute(c, s, events).now)
    decreases |events|
  {
    if events != [] {
      var s' := Step(c, s, events[0]);
      assert s' == s.(now := s'.now);
      WedgedForever(c, s', events[1..]);
    }
  }

  lemma NotWedgedWhenRefilled(c: Config, start: real, s: State)
    requires WellConfigured(c) && RefillsWithinRecovery(c) && Reachable(c, start, s)
    ensures !Wedged(s)
  {
    ReachableInvariant(c, start, s);
  }

  /** The probe takes the flag, finds less than one token, and leaves the flag behind. */
  lemma ProbeStarves(c: Config, s: State) returns (s': State)
    requires Usable(c) && !RefillsWithinRecovery(c)
    requires s.breaker.circuit.Open? && !s.breaker.probeInFlight && s.inFlight == map[]
    requires s.bucket == Bucket.State(0.0, s.now) && s.breaker.openedAt == s.now
    ensures Leads(c, s, s') && Wedged(s')
  {
    var wait := Bucket.Max(0.0, c.breaker.recoveryTimeout);
    var t := s.now + wait;
    assert Bucket.Max(0.0, t - s.bucket.updatedAt) == wait;
    assert Bucket.Refill(c.bucket, s.bucket, t).tokens < 1.0;
    LeadsByStep(c, s, Invoke(t, t));
    s' := Step(c, s, Invoke(t, t));
  }

  lemma WedgedWhenNotRefilled(c: Config, start: real) returns (s: State)
    requires Usable(c) && !RefillsWithinRecovery(c)
    ensures Reachable(c, start, s) && Wedged(s)
  {
    var s0 := Init(c, start);
    InitIsQuiet(c, start);
    var s1 := Drain(c, s0);
    var s2 := FailUntilOpen(c, s1);
    LeadsTransitively(c, s0, s1, s2);
    assert !s2.breaker.probeInFlight by {
      ReachableInvariant(c, start, s2);
    }
    s := ProbeStarves(c, s2);
    LeadsTransitively(c, s0, s2, s);
  }

  /** Recovery can wedge in some run exactly when less than one token is refilled in a recovery interval.  The
      deadline, the threshold and the bulkhead play no part. */
  lemma NeverWedgesExactlyWhenRefilled(c: Config, start: real)
    requires Usable(c)
    ensures (forall s :: Reachable(c, start, s) ==> !Wedged(s)) <==> RefillsWithinRecovery(c)
  {
    if RefillsWithinRecovery(c) {
      forall s | Reachable(c, start, s) ensures !Wedged(s) {
        NotWedgedWhenRefilled(c, start, s);
      }
    } else {
      var s := WedgedWhenNotRefilled(c, start);
    }
  }
}
