/** Admission decided by history (control_plane/reliability.py:151-179).  What `invoke` answers, and what the runtime
    knows, is a function of the events so far: of the outcomes and grants for the breaker, of the accepted times for
    the bucket, of the calls that have not returned for the bulkhead. */
module Admission {
  import Breaker
  import Bucket
  import opened Runtime

  // ---------------------------------------------------------------------------------------------
  // The history
  // ---------------------------------------------------------------------------------------------

  /** What the breaker hears of an event: every admission asks, only an answer is a success. */
  function CallOf(e: Event): Breaker.Call {
    match e
    case Invoke(checkedAt, _) => Breaker.AskAt(checkedAt)
    case Return(_, Answered, at) => Breaker.SucceedAt(at)
    case Return(_, DeadlineExceeded, at) => Breaker.FailAt(at)
    case Return(_, CallFailed, at) => Breaker.FailAt(at)
    case Return(_, UnexpectedError, at) => Breaker.FailAt(at)
  }

  function CallsOf(events: seq<Event>): (calls: seq<Breaker.Call>)
    ensures |calls| == |events|
  {
    if events == [] then [] else CallsOf(events[..|events| - 1]) + [CallOf(events[|events| - 1])]
  }

  /** The breaker's log of the events. */
  function LogOf(c: Config, events: seq<Event>): seq<Breaker.Event> {
    Breaker.Run(c.breaker, CallsOf(events)).1
  }

  /** When the bucket was asked: only by calls that the history of the breaker grants. */
  function ArrivalsOf(c: Config, events: seq<Event>): seq<real> {
    if events == [] then []
    else
      var front, last := events[..|events| - 1], events[|events| - 1];
      ArrivalsOf(c, front) +
      if last.Invoke? && Breaker.HistoryGrants(c.breaker, LogOf(c, front), last.checkedAt)
      then [last.acquiredAt]
      else []
  }

  /** When tokens were granted. */
  function AcceptedOf(c: Config, start: real, events: seq<Event>): seq<real> {
    Bucket.Run(c.bucket, start, ArrivalsOf(c, events)).1
  }

  /** How many calls have returned with an answer, or without one. */
  function Returned(events: seq<Event>, answered: bool): nat {
    if events == [] then 0
    else
      var last := events[|events| - 1];
      Returned(events[..|events| - 1], answered) +
      if last.Return? && (last.outcome == Answered) == answered then 1 else 0
  }

  ghost predicate HasReturned(events: seq<Event>, id: nat) {
    exists i :: 0 <= i < |events| && events[i].Return? && events[i].id == id
  }

  lemma {:induction false} ExecuteOneMore(c: Config, s: State, events: seq<Event>, e: Event)
    ensures Execute(c, s, events + [e]) == Step(c, Execute(c, s, events), e)
    decreases |events|
  {
    hide Step;
    if events == [] {
      assert (events + [e])[1..] == [];
      assert Execute(c, Step(c, s, e), []) == Step(c, s, e);
    } else {
      ExecuteOneMore(c, Step(c, s, events[0]), events[1..], e);
      assert (events + [e])[1..] == events[1..] + [e];
    }
  }

  lemma {:induction false} ValidOneMore(c: Config, s: State, events: seq<Event>, e: Event)
    ensures ValidRun(c, s, events + [e]) <==> ValidRun(c, s, events) && Enabled(c, Execute(c, s, events), e)
    decreases |events|
  {
    hide Step;
    hide Enabled;
    if events == [] {
      assert (events + [e])[1..] == [];
      assert ValidRun(c, Step(c, s, e), []);
    } else {
      ValidOneMore(c, Step(c, s, events[0]), events[1..], e);
      assert (events + [e])[1..] == events[1..] + [e];
    }
  }

  // ---------------------------------------------------------------------------------------------
  // The parts follow the history
  // ---------------------------------------------------------------------------------------------

  lemma BreakerStep(c: Config, s: State, e: Event)
    ensures Step(c, s, e).breaker == Breaker.Step(c.breaker, s.breaker, CallOf(e)).0
  {
    hide Bucket.Acquire;
  }

  /** The breaker of a runtime is in the state that its calls, told one by one, lead to. */
  lemma {:induction false} BreakerFollowsHistory(c: Config, start: real, events: seq<Event>)
    ensures Execute(c, Init(c, start), events).breaker == Breaker.Run(c.breaker, CallsOf(events)).0
  {
    hide Step;
    hide Breaker.Step;
    if events != [] {
      var front, last := events[..|events| - 1], events[|events| - 1];
      BreakerFollowsHistory(c, start, front);
      assert events == front + [last];
      ExecuteOneMore(c, Init(c, start), front, last);
      BreakerStep(c, Execute(c, Init(c, start), front), last);
      assert CallsOf(events)[..|events| - 1] == CallsOf(front);
    }
  }

  /** The breaker grants a call exactly when the history of the runtime does. */
  lemma GrantedByHistory(c: Config, start: real, events: seq<Event>, t: real)
    ensures Breaker.Allow(c.breaker, Execute(c, Init(c, start), events).breaker, t).1.Granted?
       <==> Breaker.HistoryGrants(c.breaker, LogOf(c, events), t)
    ensures !Execute(c, Init(c, start), events).breaker.circuit.Closed?
       <==> Breaker.Tripped(c.breaker, LogOf(c, events))
  {
    hide Execute;
    BreakerFollowsHistory(c, start, events);
    Breaker.StateIsFunctionOfHistory(c.breaker, CallsOf(events));
    var (s, log) := Breaker.Run(c.breaker, CallsOf(events));
    Breaker.StepRefines(c.breaker, s, log, Breaker.AskAt(t));
  }

  lemma BucketStep(c: Config, s: State, e: Event)
    ensures Step(c, s, e).bucket
         == if e.Invoke? && Breaker.Allow(c.breaker, s.breaker, e.checkedAt).1.Granted?
            then Bucket.Acquire(c.bucket, s.bucket, e.acquiredAt).0
            else s.bucket
  {
    hide Breaker.Allow;
    hide Bucket.Acquire;
  }

  /** The bucket is in the state that the granted calls lead to. */
  lemma {:induction false} BucketFollowsHistory(c: Config, start: real, events: seq<Event>)
    ensures Execute(c, Init(c, start), events).bucket == Bucket.Run(c.bucket, start, ArrivalsOf(c, events)).0
  {
    hide Step;
    hide Breaker.Allow;
    hide Bucket.Acquire;
    hide Breaker.HistoryGrants;
    hide LogOf;
    if events != [] {
      var front, last := events[..|events| - 1], events[|events| - 1];
      BucketFollowsHistory(c, start, front);
      assert events == front + [last];
      ExecuteOneMore(c, Init(c, start), front, last);
      var s := Execute(c, Init(c, start), front);
      BucketStep(c, s, last);
      var arrivals := ArrivalsOf(c, front);
      assert arrivals + [] == arrivals;
      if last.Invoke? {
        GrantedByHistory(c, start, front, last.checkedAt);
        assert (arrivals + [last.acquiredAt])[..|arrivals|] == arrivals;
      }
    }
  }

  lemma CountersStep(c: Config, s: State, e: Event)
    ensures var s' := Step(c, s, e);
            && s'.totalSuccesses == s.totalSuccesses + (if e.Return? && e.outcome == Answered then 1 else 0)
            && s'.totalFailures == s.totalFailures + (if e.Return? && e.outcome != Answered then 1 else 0)
  {
    hide Breaker.Allow;
    hide Bucket.Acquire;
  }

  /** The counters count: successes are the calls that returned with an answer, failures all others that returned. */
  lemma {:induction false} CountersFollowHistory(c: Config, start: real, events: seq<Event>)
    ensures Execute(c, Init(c, start), events).totalSuccesses == Returned(events, true)
    ensures Execute(c, Init(c, start), events).totalFailures == Returned(events, false)
  {
    hide Step;
    if events != [] {
      var front, last := events[..|events| - 1], events[|events| - 1];
      CountersFollowHistory(c, start, front);
      assert events == front + [last];
      ExecuteOneMore(c, Init(c, start), front, last);
      CountersStep(c, Execute(c, Init(c, start), front), last);
    }
  }

  lemma InFlightStep(c: Config, s: State, e: Event)
    ensures var s' := Step(c, s, e);
            && s.nextId <= s'.nextId <= s.nextId + 1
            && s'.nextId - s.nextId == s'.totalRequests - s.totalRequests
            && s'.inFlight.Keys == s.inFlight.Keys + (if s'.nextId > s.nextId then {s.nextId} else {})
                                   - (if e.Return? then {e.id} else {})
            && (e.Return? ==> s'.nextId == s.nextId)
  {
    hide Breaker.Allow;
    hide Bucket.Acquire;
  }

  /** In flight are exactly the calls that were counted and have not returned. */
  lemma {:induction false} InFlightFollowsHistory(c: Config, start: real, events: seq<Event>, id: nat)
    requires ValidRun(c, Init(c, start), events)
    ensures var s := Execute(c, Init(c, start), events);
            && s.nextId == s.totalRequests
            && (id in s.inFlight <==> id < s.nextId && !HasReturned(events, id))
            && (HasReturned(events, id) ==> id < s.nextId)
  {
    hide Step;
    if events != [] {
      var front, last := events[..|events| - 1], events[|events| - 1];
      assert events == front + [last];
      ValidOneMore(c, Init(c, start), front, last);
      InFlightFollowsHistory(c, start, front, id);
      ExecuteOneMore(c, Init(c, start), front, last);
      var s := Execute(c, Init(c, start), front);
      InFlightStep(c, s, last);
      ReturnedOneMore(front, last, id);
      if last.Return? {
        InFlightFollowsHistory(c, start, front, last.id);
      }
    }
  }

  lemma ReturnedOneMore(events: seq<Event>, e: Event, id: nat)
    ensures HasReturned(events + [e], id) <==> HasReturned(events, id) || (e.Return? && e.id == id)
  {
    var longer := events + [e];
    if HasReturned(events, id) {
      var i :| 0 <= i < |events| && events[i].Return? && events[i].id == id;
      assert longer[i] == events[i];
    }
    if e.Return? && e.id == id {
      assert longer[|events|] == e;
    }
    if HasReturned(longer, id) && !(e.Return? && e.id == id) {
      var i :| 0 <= i < |longer| && longer[i].Return? && longer[i].id == id;
      assert longer[i] == events[i];
    }
  }

  // ---------------------------------------------------------------------------------------------
  // The decision
  // ---------------------------------------------------------------------------------------------

  ghost predicate UpTo(start: real, arrivals: seq<real>, now: real) {
    Bucket.Monotone(start, arrivals) && start <= now && forall i :: 0 <= i < |arrivals| ==> arrivals[i] <= now
  }

  lemma ClockStep(c: Config, s: State, e: Event)
    requires Enabled(c, s, e)
    ensures s.now <= Step(c, s, e).now
    ensures e.Invoke? && Breaker.Allow(c.breaker, s.breaker, e.checkedAt).1.Granted? ==>
              Step(c, s, e).now == e.acquiredAt
  {
    hide Breaker.Allow;
    hide Bucket.Acquire;
  }

  lemma {:induction false} ArrivalsAreMonotone(c: Config, start: real, events: seq<Event>)
    requires ValidRun(c, Init(c, start), events)
    ensures UpTo(start, ArrivalsOf(c, events), Execute(c, Init(c, start), events).now)
  {
    hide Step;
    hide Enabled;
    hide Breaker.Allow;
    hide Breaker.HistoryGrants;
    hide LogOf;
    if events != [] {
      var front, last := events[..|events| - 1], events[|events| - 1];
      assert events == front + [last];
      ValidOneMore(c, Init(c, start), front, last);
      ArrivalsAreMonotone(c, start, front);
      ExecuteOneMore(c, Init(c, start), front, last);
      var s := Execute(c, Init(c, start), front);
      ClockStep(c, s, last);
      if last.Invoke? {
        GrantedByHistory(c, start, front, last.checkedAt);
        InvokeIsLater(c, s, last);
      }
    }
  }

  lemma InvokeIsLater(c: Config, s: State, e: Event)
    requires Enabled(c, s, e) && e.Invoke?
    ensures s.now <= e.checkedAt <= e.acquiredAt
  {
  }

  /** What the four ends of the admission prefix are, by the parts. */
  lemma AdmitByParts(c: Config, s: State, checkedAt: real, acquiredAt: real)
    ensures var granted := Breaker.Allow(c.breaker, s.breaker, checkedAt).1.Granted?;
            var accepted := Bucket.Acquire(c.bucket, s.bucket, acquiredAt).1;
            var (s', admission) := Admit(c, s, checkedAt, acquiredAt);
            && (admission == CircuitRejected <==> !granted)
            && (admission == RateLimited <==> granted && !accepted)
            && (admission == Overloaded <==> granted && accepted && s.freeSlots == 0)
            && (admission == Admitted <==> granted && accepted && s.freeSlots != 0)
            && s'.inFlight == if admission == Admitted
                              then s.inFlight[s.nextId := Call(acquiredAt, !s.breaker.circuit.Closed?)]
                              else s.inFlight
  {
  }

  /** Admission is decided by history alone, and each rejection says why: the circuit, if the outcomes so far forbid
      it; the rate, if the tokens granted so far leave none on the arrival curve; overload, exactly if as many calls
      as the bulkhead holds have not returned.  Whatever none of these forbids is admitted, as a probe exactly when
      the circuit is tripped, and its deadline counts from its token. */
  lemma InvokeIsDecidedByHistory(c: Config, start: real, events: seq<Event>, checkedAt: real, acquiredAt: real)
    requires WellConfigured(c) && ValidRun(c, Init(c, start), events + [Invoke(checkedAt, acquiredAt)])
    ensures var s := Execute(c, Init(c, start), events);
            var (s', admission) := Admit(c, s, checkedAt, acquiredAt);
            var granted := Breaker.HistoryGrants(c.breaker, LogOf(c, events), checkedAt);
            var conforms := Bucket.ConformsToCurve(c.bucket, AcceptedOf(c, start, events), acquiredAt);
            && (admission == CircuitRejected <==> !granted)
            && (admission == RateLimited <==> granted && !conforms)
            && (admission == Overloaded <==> granted && conforms && |s.inFlight| == c.maxConcurrency)
            && (admission == Admitted <==> granted && conforms && |s.inFlight| < c.maxConcurrency)
            && s'.inFlight ==
               if admission == Admitted
               then s.inFlight[s.nextId := Call(acquiredAt, Breaker.Tripped(c.breaker, LogOf(c, events)))]
               else s.inFlight
  {
    hide Breaker.HistoryGrants;
    hide Breaker.Tripped;
    hide Breaker.Allow;
    hide Bucket.ConformsToCurve;
    hide Bucket.Acquire;
    hide Admit;
    hide Execute;
    hide ValidRun;
    hide LogOf;
    hide AcceptedOf;
    var s := Execute(c, Init(c, start), events);
    GrantedByHistory(c, start, events, checkedAt);
    AcceptedByHistory(c, start, events, checkedAt, acquiredAt);
    SlotsByHistory(c, start, events, Invoke(checkedAt, acquiredAt));
    AdmitByParts(c, s, checkedAt, acquiredAt);
  }

  lemma AcceptedByHistory(c: Config, start: real, events: seq<Event>, checkedAt: real, acquiredAt: real)
    requires WellConfigured(c) && ValidRun(c, Init(c, start), events + [Invoke(checkedAt, acquiredAt)])
    ensures Bucket.Acquire(c.bucket, Execute(c, Init(c, start), events).bucket, acquiredAt).1
       <==> Bucket.ConformsToCurve(c.bucket, AcceptedOf(c, start, events), acquiredAt)
  {
    hide Bucket.ConformsToCurve;
    hide Bucket.Acquire;
    hide Execute;
    hide ValidRun;
    hide ArrivalsOf;
    var arrivals := ArrivalsOf(c, events);
    var s := Execute(c, Init(c, start), events);
    ValidOneMore(c, Init(c, start), events, Invoke(checkedAt, acquiredAt));
    ArrivalsAreMonotone(c, start, events);
    InvokeIsLater(c, s, Invoke(checkedAt, acquiredAt));
    BucketFollowsHistory(c, start, events);
    MonotoneOneMore(start, arrivals, s.now, acquiredAt);
    Bucket.DecidesArrivalCurve(c.bucket, start, arrivals, acquiredAt);
  }

  lemma MonotoneOneMore(start: real, arrivals: seq<real>, now: real, t: real)
    requires UpTo(start, arrivals, now) && now <= t
    ensures Bucket.Monotone(start, arrivals + [t])
  {
  }

  lemma SlotsByHistory(c: Config, start: real, events: seq<Event>, e: Event)
    requires WellConfigured(c) && ValidRun(c, Init(c, start), events + [e])
    ensures var s := Execute(c, Init(c, start), events);
            s.freeSlots == c.maxConcurrency - |s.inFlight| && s.freeSlots >= 0
  {
    hide Execute;
    hide ValidRun;
    ValidOneMore(c, Init(c, start), events, e);
    ReachableInvariant(c, start, Execute(c, Init(c, start), events));
  }
}
