/** When calls of one provider can overlap, and what that does to an open circuit.  Two calls can be in flight at once
    exactly when the bulkhead has two slots and a second token can be had before the first call's deadline; that one
    condition decides whether a call can outlive the opening of the circuit. */
module Overlap {
  import Breaker
  import Bucket
  import opened Runtime
  import opened Recovery

  /** A full bucket keeps capacity - 1 after the first call, and regains a whole token before its deadline. */
  predicate SecondTokenInTime(c: Config) {
    c.deadline * c.bucket.rate >= 2.0 - c.bucket.capacity
  }

  /** Two slots, and a second token within the deadline. */
  predicate CanOverlap(c: Config) {
    c.maxConcurrency >= 2 && SecondTokenInTime(c)
  }

  // ---------------------------------------------------------------------------------------------
  // Calls that cannot overlap
  // ---------------------------------------------------------------------------------------------

  /** The bucket has at most regained, since a call was admitted, what the rate gave it. */
  predicate DrawnAt(c: Bucket.Config, b: Bucket.State, admittedAt: real) {
    admittedAt <= b.updatedAt && b.tokens <= c.capacity - 1.0 + (b.updatedAt - admittedAt) * c.rate
  }

  ghost predicate Drawn(c: Config, s: State) {
    forall id :: id in s.inFlight ==> DrawnAt(c.bucket, s.bucket, s.inFlight[id].admittedAt)
  }

  lemma AcquireKeepsDrawn(c: Bucket.Config, b: Bucket.State, admittedAt: real, t: real)
    requires DrawnAt(c, b, admittedAt) && b.updatedAt <= t
    ensures DrawnAt(c, Bucket.Acquire(c, b, t).0, admittedAt)
  {
    Bucket.Distribute(c.rate, t - b.updatedAt, b.updatedAt - admittedAt);
    assert (t - b.updatedAt) + (b.updatedAt - admittedAt) == t - admittedAt;
  }

  lemma AcquireDraws(c: Bucket.Config, b: Bucket.State, t: real)
    requires Bucket.Acquire(c, b, t).1
    ensures DrawnAt(c, Bucket.Acquire(c, b, t).0, t)
  {
    assert Bucket.Acquire(c, b, t).0.updatedAt - t == 0.0;
  }

  lemma StepKeepsDrawn(c: Config, s: State, e: Event)
    requires Drawn(c, s) && Enabled(c, s, e) && s.bucket.updatedAt <= s.now
    ensures Drawn(c, Step(c, s, e))
  {
    hide Bucket.Acquire;
    hide DrawnAt;
    var s' := Step(c, s, e);
    forall id | id in s'.inFlight
      ensures DrawnAt(c.bucket, s'.bucket, s'.inFlight[id].admittedAt)
    {
      if e.Invoke? {
        if id in s.inFlight && s'.inFlight[id] == s.inFlight[id] {
          AcquireKeepsDrawn(c.bucket, s.bucket, s.inFlight[id].admittedAt, e.acquiredAt);
        } else {
          AcquireDraws(c.bucket, s.bucket, e.acquiredAt);
        }
      }
    }
  }

  /** While a call is in flight and its deadline has not passed there is no second token. */
  lemma NoSecondToken(c: Config, b: Bucket.State, admittedAt: real, t: real)
    requires c.bucket.rate >= 0.0 && !SecondTokenInTime(c)
    requires DrawnAt(c.bucket, b, admittedAt) && b.updatedAt <= t <= admittedAt + c.deadline
    ensures !Bucket.Acquire(c.bucket, b, t).1
  {
    var left := c.deadline - (t - admittedAt);
    Bucket.Growing(c.bucket.rate, left);
    Bucket.Distribute(c.bucket.rate, left, t - admittedAt);
    Bucket.Distribute(c.bucket.rate, t - b.updatedAt, b.updatedAt - admittedAt);
    assert left + (t - admittedAt) == c.deadline;
    assert (t - b.updatedAt) + (b.updatedAt - admittedAt) == t - admittedAt;
  }

  /** One call at a time: an open circuit has none in flight, and a half-open one at most its probe. */
  ghost predicate Serial(c: Config, s: State) {
    && (forall one, two :: one in s.inFlight && two in s.inFlight ==> one == two)
    && (s.breaker.circuit.Open? ==> s.inFlight == map[])
    && NothingButProbe(c, s)
  }

  lemma OneSlotTaken(c: Config, s: State, id: nat)
    requires Accounting(c, s) && c.maxConcurrency < 2 && id in s.inFlight
    ensures s.freeSlots == 0
  {
    RemoveOne(s.inFlight, id);
  }

  lemma NotAdmitted(c: Config, s: State, checkedAt: real, acquiredAt: real)
    requires s.freeSlots == 0 || !Bucket.Acquire(c.bucket, s.bucket, acquiredAt).1
    ensures !Admit(c, s, checkedAt, acquiredAt).1.Admitted?
  {
    hide Bucket.Acquire;
    hide Breaker.Allow;
  }

  lemma NoneAdmittedBeside(c: Config, s: State, checkedAt: real, acquiredAt: real)
    requires WellConfigured(c) && !CanOverlap(c) && Accounting(c, s) && Drawn(c, s)
    requires Enabled(c, s, Invoke(checkedAt, acquiredAt)) && s.bucket.updatedAt <= s.now && s.inFlight != map[]
    ensures !Admit(c, s, checkedAt, acquiredAt).1.Admitted?
  {
    hide Admit;
    hide Accounting;
    hide Bucket.Acquire;
    hide DrawnAt;
    hide SecondTokenInTime;
    var id :| id in s.inFlight;
    if c.maxConcurrency < 2 {
      OneSlotTaken(c, s, id);
    } else {
      NoSecondToken(c, s.bucket, s.inFlight[id].admittedAt, acquiredAt);
    }
    NotAdmitted(c, s, checkedAt, acquiredAt);
  }

  lemma AdmitKeepsSerial(c: Config, s: State, checkedAt: real, acquiredAt: real)
    requires WellConfigured(c) && !CanOverlap(c) && Invariant(c, s) && Drawn(c, s) && Serial(c, s)
    requires Enabled(c, s, Invoke(checkedAt, acquiredAt))
    ensures Serial(c, Admit(c, s, checkedAt, acquiredAt).0)
  {
    if s.inFlight != map[] {
      NoneAdmittedBeside(c, s, checkedAt, acquiredAt);
    }
  }

  lemma FinishKeepsSerial(c: Config, s: State, id: nat, outcome: Outcome, at: real)
    requires Invariant(c, s) && Serial(c, s) && id in s.inFlight
    ensures Serial(c, Finish(c, s, id, outcome, at))
  {
    assert s.inFlight - {id} == map[];
  }

  lemma {:induction false} RunKeepsSerial(c: Config, s: State, events: seq<Event>)
    requires WellConfigured(c) && !CanOverlap(c) && ValidRun(c, s, events)
    requires Invariant(c, s) && Drawn(c, s) && Serial(c, s)
    ensures Serial(c, Execute(c, s, events))
    decreases |events|
  {
    if events != [] {
      StepKeepsDrawn(c, s, events[0]);
      match events[0] {
        case Invoke(checkedAt, acquiredAt) =>
          AdmitKeepsInvariant(c, s, checkedAt, acquiredAt);
          AdmitKeepsSerial(c, s, checkedAt, acquiredAt);
        case Return(id, outcome, at) =>
          FinishKeepsInvariant(c, s, id, outcome, at);
          FinishKeepsSerial(c, s, id, outcome, at);
      }
      RunKeepsSerial(c, Step(c, s, events[0]), events[1..]);
    }
  }

  lemma ReachableIsSerial(c: Config, start: real, s: State)
    requires WellConfigured(c) && !CanOverlap(c) && Reachable(c, start, s)
    ensures Serial(c, s)
  {
    var events :| ValidRun(c, Init(c, start), events) && Execute(c, Init(c, start), events) == s;
    InitInvariant(c, start);
    RunKeepsSerial(c, Init(c, start), events);
  }

  // ---------------------------------------------------------------------------------------------
  // Calls that do
  // ---------------------------------------------------------------------------------------------

  /** Failing calls, each made with a full bucket, until one more failure opens the circuit. */
  lemma {:induction false} FailToBrink(c: Config, s: State) returns (s': State)
    requires Usable(c) && Quiet(c, s)
    ensures Leads(c, s, s') && Quiet(c, s')
    ensures s'.breaker.failures + 1 == Breaker.EffectiveThreshold(c.breaker)
    decreases Breaker.EffectiveThreshold(c.breaker) - s.breaker.failures
  {
    if s.breaker.failures + 1 == Breaker.EffectiveThreshold(c.breaker) {
      s' := s;
      LeadsToSelf(c, s);
    } else {
      var t := FullAt(c, s);
      var s1 := Round(c, s, t, CallFailed);
      s' := FailToBrink(c, s1);
      LeadsTransitively(c, s, s1, s');
    }
  }

  lemma FullAt(c: Config, s: State) returns (t: real)
    requires Usable(c) && Quiet(c, s)
    ensures s.now <= t && Bucket.Refill(c.bucket, s.bucket, t) == Bucket.Full(c.bucket, t)
  {
    WaitThenRefill(c.bucket.rate, c.bucket.capacity);
    t := s.now + c.bucket.capacity / c.bucket.rate;
    assert Bucket.Max(0.0, t - s.bucket.updatedAt) == c.bucket.capacity / c.bucket.rate;
  }

  /** How long a bucket that was full before its last token was taken needs for another one. */
  lemma SecondTokenWait(c: Config) returns (wait: real)
    requires Usable(c) && CanOverlap(c)
    ensures 0.0 <= wait <= c.deadline && c.bucket.capacity - 1.0 + wait * c.bucket.rate >= 1.0
  {
    if c.bucket.capacity >= 2.0 {
      wait := 0.0;
    } else {
      var missing := 2.0 - c.bucket.capacity;
      WaitThenRefill(c.bucket.rate, missing);
      wait := missing / c.bucket.rate;
      var excess := wait - c.deadline;
      assert excess * c.bucket.rate == missing - c.deadline * c.bucket.rate;
      FactorSign(c.bucket.rate, excess);
    }
  }

  lemma FactorSign(rate: real, factor: real)
    requires rate > 0.0 && factor * rate <= 0.0
    ensures factor <= 0.0
  {
  }

  /** One call in flight, taken from a full bucket, whose failure would open the circuit. */
  lemma OneInFlight(c: Config, start: real) returns (s: State, first: nat)
    requires Usable(c)
    ensures Reachable(c, start, s) && first < s.nextId
    ensures s.inFlight == map[first := Call(s.now, false)] && s.freeSlots == c.maxConcurrency - 1
    ensures s.bucket == Bucket.State(c.bucket.capacity - 1.0, s.now)
    ensures s.breaker.circuit.Closed? && s.breaker.failures + 1 == Breaker.EffectiveThreshold(c.breaker)
  {
    var s0 := Init(c, start);
    InitIsQuiet(c, start);
    var s1 := FailToBrink(c, s0);
    var t := FullAt(c, s1);
    first := s1.nextId;
    s := Step(c, s1, Invoke(t, t));
    assert s.inFlight == map[first := Call(t, false)];
    LeadsByStep(c, s1, Invoke(t, t));
    LeadsTransitively(c, s0, s1, s);
  }

  /** Two calls in flight, the first of which opens the circuit if it fails. */
  lemma TwoInFlight(c: Config, start: real) returns (s: State, first: nat, second: nat, admittedAt: real)
    requires Usable(c) && CanOverlap(c)
    ensures Reachable(c, start, s) && first != second
    ensures s.inFlight == map[first := Call(admittedAt, false), second := Call(s.now, false)]
    ensures admittedAt <= s.now <= admittedAt + c.deadline
    ensures s.breaker.circuit.Closed? && s.breaker.failures + 1 == Breaker.EffectiveThreshold(c.breaker)
  {
    hide SecondTokenInTime;
    var s1;
    s1, first := OneInFlight(c, start);
    var wait := SecondTokenWait(c);
    admittedAt, second := s1.now, s1.nextId;
    var u := admittedAt + wait;
    SecondTokenIsThere(c.bucket, s1.bucket, u, wait);
    s := Step(c, s1, Invoke(u, u));
    assert s.inFlight == map[first := Call(admittedAt, false), second := Call(u, false)];
    LeadsByStep(c, s1, Invoke(u, u));
    LeadsTransitively(c, Init(c, start), s1, s);
  }

  lemma SecondTokenIsThere(c: Bucket.Config, b: Bucket.State, u: real, wait: real)
    requires c.capacity >= 1.0 && u == b.updatedAt + wait && wait >= 0.0
    requires b.tokens + wait * c.rate >= 1.0
    ensures Bucket.Acquire(c, b, u).1
  {
    assert Bucket.Max(0.0, u - b.updatedAt) == wait;
  }

  /** The first call's failure opens the circuit: the other is a straggler. */
  lemma OpenWithStraggler(c: Config, start: real) returns (s: State, id: nat)
    requires Usable(c) && CanOverlap(c)
    ensures Reachable(c, start, s)
    ensures s.breaker.circuit.Open? && s.breaker.openedAt == s.now
    ensures s.inFlight == map[id := Call(s.now, false)]
  {
    var s1, first, second, admittedAt := TwoInFlight(c, start);
    var e := Return(first, CallFailed, s1.now);
    id := second;
    s := Step(c, s1, e);
    assert s.inFlight == map[second := Call(s1.now, false)];
    LeadsByStep(c, s1, e);
    LeadsTransitively(c, Init(c, start), s1, s);
  }

  // ---------------------------------------------------------------------------------------------
  // Exactly when
  // ---------------------------------------------------------------------------------------------

  /** Some run has two calls in flight exactly when there are two slots and a second token in time. */
  lemma CallsOverlapExactlyWhen(c: Config, start: real)
    requires Usable(c)
    ensures (exists s :: Reachable(c, start, s) && |s.inFlight| >= 2) <==> CanOverlap(c)
  {
    if CanOverlap(c) {
      var s, first, second, admittedAt := TwoInFlight(c, start);
      RemoveOne(s.inFlight, first);
      assert second in s.inFlight - {first};
      RemoveOne(s.inFlight - {first}, second);
    } else {
      forall s | Reachable(c, start, s) ensures |s.inFlight| < 2 {
        ReachableIsSerial(c, start, s);
        AtMostOne(c, s);
      }
    }
  }

  lemma AtMostOne(c: Config, s: State)
    requires Serial(c, s)
    ensures |s.inFlight| <= 1
  {
    if s.inFlight != map[] {
      var id :| id in s.inFlight;
      assert s.inFlight - {id} == map[];
      RemoveOne(s.inFlight, id);
    }
  }

  /** Only the probe is ever in flight while half-open exactly when the deadline is below the recovery timeout, or
      calls cannot overlap anyway. */
  lemma ProbeIsAloneExactlyWhen(c: Config, start: real)
    requires Usable(c)
    ensures (forall s :: Reachable(c, start, s) ==> NothingButProbe(c, s)) <==>
            DeadlineBelowRecovery(c) || !CanOverlap(c)
  {
    if DeadlineBelowRecovery(c) || !CanOverlap(c) {
      forall s | Reachable(c, start, s) ensures NothingButProbe(c, s) {
        if DeadlineBelowRecovery(c) {
          ReachableInvariant(c, start, s);
        } else {
          ReachableIsSerial(c, start, s);
        }
      }
    } else {
      var s := ProbeBesideStraggler(c, start);
    }
  }

  lemma ProbeBesideStraggler(c: Config, start: real) returns (s': State)
    requires Usable(c) && CanOverlap(c) && !DeadlineBelowRecovery(c)
    ensures Reachable(c, start, s') && !NothingButProbe(c, s')
  {
    var s, id := OpenWithStraggler(c, start);
    ReachableInvariant(c, start, s);
    var t := s.now + Bucket.Max(0.0, c.breaker.recoveryTimeout);
    s' := Step(c, s, Invoke(t, t));
    LeadsByStep(c, s, Invoke(t, t));
    LeadsTransitively(c, Init(c, start), s, s');
    assert id in s'.inFlight && !s'.inFlight[id].probe;
  }

  /** The circuit, once open, is not closed again before the recovery interval has passed. */
  ghost predicate StaysOpen(c: Config, s: State) {
    s.breaker.circuit.Open? ==>
      forall e :: Enabled(c, s, e) && Step(c, s, e).now - s.breaker.openedAt < c.breaker.recoveryTimeout ==>
                    !Step(c, s, e).breaker.circuit.Closed?
  }

  /** An open circuit keeps traffic out for its whole recovery interval in every run exactly when it has none or calls
      cannot overlap: otherwise the success of a call admitted before the opening closes it early. */
  lemma StaysOpenExactlyWhen(c: Config, start: real)
    requires Usable(c)
    ensures (forall s :: Reachable(c, start, s) ==> StaysOpen(c, s)) <==>
            c.breaker.recoveryTimeout <= 0.0 || !CanOverlap(c)
  {
    if c.breaker.recoveryTimeout <= 0.0 || !CanOverlap(c) {
      forall s | Reachable(c, start, s) ensures StaysOpen(c, s) {
        ReachableInvariant(c, start, s);
        if CanOverlap(c) {
          assert forall e :: Enabled(c, s, e) ==> Step(c, s, e).now >= s.now;
        } else {
          ReachableIsSerial(c, start, s);
        }
      }
    } else {
      var s, id := OpenWithStraggler(c, start);
      var e := Return(id, Answered, s.now);
      assert Enabled(c, s, e) && Step(c, s, e).breaker.circuit.Closed?;
      assert !StaysOpen(c, s);
    }
  }
}
