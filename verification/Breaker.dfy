/** The circuit breaker of one provider (control_plane/reliability.py, class CircuitBreaker).

    The breaker is a class with the source's four fields.  Its methods are specified by step functions on the
    value of those fields, and the lemmas relate any sequence of calls to a history: the log of grants,
    refusals and recorded outcomes.  Everything the breaker does is a function of that log. */
module Breaker {

  datatype Circuit = Closed | Open | HalfOpen

  datatype Config = Config(failureThreshold: int, recoveryTimeout: real)

  datatype State = State(circuit: Circuit, failures: nat, openedAt: real, probeInFlight: bool)

  /** What `allow_request` tells its caller: a normal return, or one of its two `CircuitOpenError`s. */
  datatype Verdict = Granted | StillOpen | ProbePending

  const INITIAL := State(Closed, 0, 0.0, false)

  function Allow(c: Config, s: State, now: real): (State, Verdict) {
    if s.circuit.Closed? then
      (s, Granted)
    else if s.circuit.Open? && now - s.openedAt < c.recoveryTimeout then
      (s, StillOpen)
    else if s.probeInFlight then
      (s.(circuit := HalfOpen), ProbePending)
    else
      (s.(circuit := HalfOpen, probeInFlight := true), Granted)
  }

  function RecordSuccess(s: State): State {
    s.(circuit := Closed, failures := 0, probeInFlight := false)
  }

  function RecordFailure(c: Config, s: State, now: real): State {
    var s' := s.(failures := s.failures + 1, probeInFlight := false);
    if s.circuit.HalfOpen? || s'.failures >= c.failureThreshold
    then s'.(circuit := Open, openedAt := now)
    else s'
  }

  class CircuitBreaker {
    const config: Config
    var circuit: Circuit
    var failures: nat
    var openedAt: real
    var probeInFlight: bool

    constructor (config: Config)
      ensures this.config == config && Value() == INITIAL
    {
      this.config := config;
      circuit, failures, openedAt, probeInFlight := Closed, 0, 0.0, false;
    }

    ghost function Value(): State
      reads this
    {
      State(circuit, failures, openedAt, probeInFlight)
    }

    method AllowRequest(now: real) returns (verdict: Verdict)
      modifies this
      ensures (Value(), verdict) == Allow(config, old(Value()), now)
    {
      if circuit == Closed {
        return Granted;
      }
      if circuit == Open {
        if now - openedAt < config.recoveryTimeout {
          return StillOpen;
        }
        circuit := HalfOpen;
      }
      if probeInFlight {
        return ProbePending;
      }
      probeInFlight := true;
      return Granted;
    }

    method NoteSuccess()
      modifies this
      ensures Value() == RecordSuccess(old(Value()))
    {
      circuit := Closed;
      failures := 0;
      probeInFlight := false;
    }

    method NoteFailure(now: real)
      modifies this
      ensures Value() == RecordFailure(config, old(Value()), now)
    {
      failures := failures + 1;
      probeInFlight := false;
      if circuit == HalfOpen || failures >= config.failureThreshold {
        circuit := Open;
        openedAt := now;
      }
    }
  }

  // ---------------------------------------------------------------------------------------------
  // Runs and their history
  // ---------------------------------------------------------------------------------------------

  /** A call on the breaker, with the reading of its clock. */
  datatype Call = AskAt(now: real) | SucceedAt(now: real) | FailAt(now: real)

  /** What is remembered of a call. */
  datatype Event = Grant(at: real) | Refusal(at: real) | Success(at: real) | Failure(at: real)

  predicate IsOutcome(e: Event) {
    e.Success? || e.Failure?
  }

  function Step(c: Config, s: State, call: Call): (State, Event) {
    match call
    case AskAt(now) =>
      var (s', verdict) := Allow(c, s, now);
      (s', if verdict.Granted? then Grant(now) else Refusal(now))
    case SucceedAt(now) => (RecordSuccess(s), Success(now))
    case FailAt(now) => (RecordFailure(c, s, now), Failure(now))
  }

  /** The state after a run of calls, and the log of the run. */
  function Run(c: Config, calls: seq<Call>): (r: (State, seq<Event>))
    ensures |r.1| == |calls|
  {
    if calls == [] then
      (INITIAL, [])
    else
      var last := |calls| - 1;
      var (s, log) := Run(c, calls[..last]);
      var (s', event) := Step(c, s, calls[last]);
      (s', log + [event])
  }

  /** The length of the run of failures at the end of the outcome log. */
  function TrailingFailures(log: seq<Event>): nat {
    if log == [] then 0
    else
      var last := |log| - 1;
      match log[last]
      case Failure(_) => 1 + TrailingFailures(log[..last])
      case Success(_) => 0
      case _ => TrailingFailures(log[..last])
  }

  function LastFailureTime(log: seq<Event>): real {
    if log == [] then 0.0
    else
      var last := |log| - 1;
      if log[last].Failure? then log[last].at else LastFailureTime(log[..last])
  }

  predicate GrantedSinceOutcome(log: seq<Event>) {
    log != [] &&
    var last := |log| - 1;
    log[last].Grant? || (log[last].Refusal? && GrantedSinceOutcome(log[..last]))
  }

  /** A threshold below one behaves as one: the comparison only happens after a failure was counted. */
  function EffectiveThreshold(c: Config): int {
    if c.failureThreshold < 1 then 1 else c.failureThreshold
  }

  /** The threshold has been reached and no success has been recorded since. */
  predicate Tripped(c: Config, log: seq<Event>) {
    TrailingFailures(log) >= EffectiveThreshold(c)
  }

  /** The breaker seen as a function of its history. */
  predicate Refines(c: Config, s: State, log: seq<Event>) {
    && s.failures == TrailingFailures(log)
    && (s.circuit.Closed? <==> !Tripped(c, log))
    && (s.circuit.HalfOpen? <==> Tripped(c, log) && GrantedSinceOutcome(log))
    && (s.probeInFlight <==> s.circuit.HalfOpen?)
    && (!s.circuit.Closed? ==> s.openedAt == LastFailureTime(log))
  }

  /** The admission rule stated on the history alone. */
  predicate HistoryGrants(c: Config, log: seq<Event>, now: real) {
    !Tripped(c, log) || (!GrantedSinceOutcome(log) && now - LastFailureTime(log) >= c.recoveryTimeout)
  }

  lemma StepRefines(c: Config, s: State, log: seq<Event>, call: Call)
    requires Refines(c, s, log)
    ensures var (s', event) := Step(c, s, call);
            && Refines(c, s', log + [event])
            && (call.AskAt? ==> (event.Grant? <==> HistoryGrants(c, log, call.now)))
  {
    var (s', event) := Step(c, s, call);
    var log' := log + [event];
    assert log'[..|log'| - 1] == log;
  }

  /** Whatever the calls and the clock readings, the state is the function of the log given by `Refines`. */
  lemma {:induction false} StateIsFunctionOfHistory(c: Config, calls: seq<Call>)
    ensures var (s, log) := Run(c, calls); Refines(c, s, log)
  {
    if calls != [] {
      var last := |calls| - 1;
      StateIsFunctionOfHistory(c, calls[..last]);
      var (s, log) := Run(c, calls[..last]);
      StepRefines(c, s, log, calls[last]);
    }
  }

  /** The log of a prefix of a run is a prefix of its log. */
  lemma {:induction false} LogOfPrefix(c: Config, calls: seq<Call>, k: nat)
    requires k <= |calls|
    ensures Run(c, calls[..k]).1 == Run(c, calls).1[..k]
  {
    var last := |calls| - 1;
    if k == |calls| {
      assert calls[..k] == calls;
    } else {
      LogOfPrefix(c, calls[..last], k);
      assert calls[..last][..k] == calls[..k];
    }
  }

  /** At every point of every run a request is granted exactly when the history allows it. */
  lemma GrantsAreDecidedByHistory(c: Config, calls: seq<Call>, k: nat)
    requires k < |calls| && calls[k].AskAt?
    ensures var log := Run(c, calls).1;
            && log[k].at == calls[k].now
            && (log[k].Grant? <==> HistoryGrants(c, log[..k], calls[k].now))
  {
    LogOfPrefix(c, calls, k);
    LogOfPrefix(c, calls, k + 1);
    assert calls[..k + 1][..k] == calls[..k];
    var (s, log) := Run(c, calls[..k]);
    StateIsFunctionOfHistory(c, calls[..k]);
    StepRefines(c, s, log, calls[k]);
    assert Run(c, calls[..k + 1]).1[k] == Run(c, calls).1[k];
  }

  /** Which call left an event. */
  lemma {:induction false} EventOfCall(c: Config, calls: seq<Call>, k: nat)
    requires k < |calls|
    ensures var e := Run(c, calls).1[k];
            && (calls[k].AskAt? <==> e.Grant? || e.Refusal?)
            && (calls[k].SucceedAt? <==> e.Success?)
            && (calls[k].FailAt? <==> e.Failure?)
            && e.at == calls[k].now
  {
    LogOfPrefix(c, calls, k + 1);
    assert calls[..k + 1][..k] == calls[..k];
    assert Run(c, calls[..k + 1]).1[k] == Run(c, calls).1[k];
  }

  /** Between a grant and a later point with no outcome in between, nothing the history counts has changed. */
  lemma {:induction false} QuietSuffix(log: seq<Event>, i: nat)
    requires i < |log| && log[i].Grant?
    requires forall k :: i < k < |log| ==> !IsOutcome(log[k])
    ensures GrantedSinceOutcome(log)
    ensures TrailingFailures(log) == TrailingFailures(log[..i])
  {
    var last := |log| - 1;
    if i < last {
      QuietSuffix(log[..last], i);
      assert log[..last][..i] == log[..i];
    }
  }

  /** Single flight, with no assumption on the clock: once the threshold is reached, two grants always have an
      outcome between them, and each comes at least the recovery timeout after the last recorded failure. */
  lemma {:induction false} SingleFlight(c: Config, calls: seq<Call>, j: nat)
    requires j < |calls|
    requires var log := Run(c, calls).1; log[j].Grant? && Tripped(c, log[..j])
    ensures var log := Run(c, calls).1;
            && log[j].at - LastFailureTime(log[..j]) >= c.recoveryTimeout
            && forall i :: 0 <= i < j && log[i].Grant? ==> exists k :: i < k < j && IsOutcome(log[k])
  {
    var log := Run(c, calls).1;
    EventOfCall(c, calls, j);
    GrantsAreDecidedByHistory(c, calls, j);
    forall i | 0 <= i < j && log[i].Grant?
      ensures exists k :: i < k < j && IsOutcome(log[k])
    {
      if forall k :: i < k < j ==> !IsOutcome(log[k]) {
        QuietSuffix(log[..j], i);
        assert false;
      }
    }
  }

  /** Why a request is refused, at any point of any run: the recovery timeout has not passed since the last failure, or
      a probe has been granted and not reported back. */
  lemma RefusalsAreDecidedByHistory(c: Config, calls: seq<Call>, now: real)
    ensures var (s, log) := Run(c, calls);
            var verdict := Allow(c, s, now).1;
            && (verdict == StillOpen <==>
                  Tripped(c, log) && !GrantedSinceOutcome(log) && now - LastFailureTime(log) < c.recoveryTimeout)
            && (verdict == ProbePending <==> Tripped(c, log) && GrantedSinceOutcome(log))
  {
    hide Tripped;
    hide GrantedSinceOutcome;
    StateIsFunctionOfHistory(c, calls);
  }
}
