/** The token bucket of one provider (control_plane/reliability.py, class TokenBucket).

    The bucket refills lazily: tokens are only brought up to date when somebody asks.  The specification knows
    nothing of tokens.  It is an arrival curve: in every window that ends now and starts at an accepted request,
    at most `capacity + rate * length` requests are accepted. */
module Bucket {

  datatype Config = Config(rate: real, capacity: real)

  datatype State = State(tokens: real, updatedAt: real)

  function Min(a: real, b: real): real {
    if a <= b then a else b
  }

  function Max(a: real, b: real): real {
    if a >= b then a else b
  }

  function Full(c: Config, now: real): State {
    State(c.capacity, now)
  }

  function Refill(c: Config, s: State, now: real): State {
    State(Min(c.capacity, s.tokens + Max(0.0, now - s.updatedAt) * c.rate), now)
  }

  function Acquire(c: Config, s: State, now: real): (State, bool) {
    var s' := Refill(c, s, now);
    if s'.tokens < 1.0 then (s', false) else (s'.(tokens := s'.tokens - 1.0), true)
  }

  class TokenBucket {
    const config: Config
    var tokens: real
    var updatedAt: real

    constructor (config: Config, now: real)
      ensures this.config == config && Value() == Full(config, now)
    {
      this.config := config;
      tokens := config.capacity;
      updatedAt := now;
    }

    ghost function Value(): State
      reads this
    {
      State(tokens, updatedAt)
    }

    method TryAcquire(now: real) returns (accepted: bool)
      modifies this
      ensures (Value(), accepted) == Acquire(config, old(Value()), now)
    {
      var elapsed := Max(0.0, now - updatedAt);
      tokens := Min(config.capacity, tokens + elapsed * config.rate);
      updatedAt := now;
      if tokens < 1.0 {
        return false;
      }
      tokens := tokens - 1.0;
      return true;
    }
  }

  // ---------------------------------------------------------------------------------------------
  // Runs
  // ---------------------------------------------------------------------------------------------

  /** Arrival times of requests, read from a clock that never goes back. */
  predicate Monotone(start: real, arrivals: seq<real>) {
    && (forall i :: 0 <= i < |arrivals| ==> start <= arrivals[i])
    && (forall i, j :: 0 <= i < j < |arrivals| ==> arrivals[i] <= arrivals[j])
  }

  /** The state after the arrivals, and the times of the accepted ones. */
  function Run(c: Config, start: real, arrivals: seq<real>): (State, seq<real>) {
    if arrivals == [] then
      (Full(c, start), [])
    else
      var last := |arrivals| - 1;
      var (s, accepted) := Run(c, start, arrivals[..last]);
      var (s', ok) := Acquire(c, s, arrivals[last]);
      (s', if ok then accepted + [arrivals[last]] else accepted)
  }

  /** Whether the bucket accepts a request at time t after these arrivals. */
  predicate Accepts(c: Config, start: real, arrivals: seq<real>, t: real) {
    Acquire(c, Run(c, start, arrivals).0, t).1
  }

  /** How many of the accepted times lie in [since, infinity). */
  function CountFrom(accepted: seq<real>, since: real): nat {
    if accepted == [] then 0
    else
      var last := |accepted| - 1;
      CountFrom(accepted[..last], since) + if accepted[last] >= since then 1 else 0
  }

  /** How many requests a window of this length may hold. */
  function Allowance(c: Config, length: real): real {
    c.capacity + length * c.rate
  }

  /** The specification: a request at t conforms when the window from every accepted time to t, this request
      included, holds at most capacity + rate * length requests, and so does the window [t, t]. */
  ghost predicate ConformsToCurve(c: Config, accepted: seq<real>, t: real) {
    && 1.0 <= c.capacity
    && forall s :: s in accepted ==> (CountFrom(accepted, s) + 1) as real <= Allowance(c, t - s)
  }

  // ---------------------------------------------------------------------------------------------
  // Lazy refill composes
  // ---------------------------------------------------------------------------------------------

  lemma Distribute(r: real, a: real, b: real)
    ensures (a + b) * r == a * r + b * r
  {
  }

  lemma Growing(r: real, a: real)
    requires r >= 0.0 && a >= 0.0
    ensures a * r >= 0.0
  {
  }

  /** Refilling in two steps is refilling once, so being asked in between leaves no trace in the level. */
  lemma RefillComposes(c: Config, s: State, t: real, u: real)
    requires c.rate >= 0.0
    requires s.updatedAt <= t <= u
    ensures Refill(c, Refill(c, s, t), u) == Refill(c, s, u)
  {
    var a, b := t - s.updatedAt, u - t;
    Distribute(c.rate, a, b);
    Growing(c.rate, a);
    Growing(c.rate, b);
    assert a + b == u - s.updatedAt;
  }

  /** A clock that goes back gives no tokens and takes none. */
  lemma ClockGoingBackGivesNothing(c: Config, s: State, now: real)
    requires now <= s.updatedAt && s.tokens <= c.capacity
    ensures Refill(c, s, now) == State(s.tokens, now)
    ensures Acquire(c, s, now).1 <==> s.tokens >= 1.0
  {
    assert Max(0.0, now - s.updatedAt) == 0.0;
  }

  // ---------------------------------------------------------------------------------------------
  // The level of the bucket is the slack of the arrival curve
  // ---------------------------------------------------------------------------------------------

  /** Below the curve of the i-th accepted request: the level x and the requests accepted since then fit. */
  predicate Fits(c: Config, accepted: seq<real>, i: nat, t: real, x: real)
    requires i < |accepted|
  {
    x + (|accepted| - i) as real <= Allowance(c, t - accepted[i])
  }

  /** A level of x is available at time t according to the accepted times alone. */
  ghost predicate Slack(c: Config, accepted: seq<real>, t: real, x: real) {
    && x <= c.capacity
    && forall i :: 0 <= i < |accepted| ==> Fits(c, accepted, i, t, x)
  }

  lemma RunTimes(c: Config, start: real, arrivals: seq<real>)
    requires Monotone(start, arrivals)
    ensures var (s, accepted) := Run(c, start, arrivals);
            && s.updatedAt == (if arrivals == [] then start else arrivals[|arrivals| - 1])
            && Monotone(start, accepted)
            && (forall i :: 0 <= i < |accepted| ==> accepted[i] <= s.updatedAt)
  {
  }

  lemma FitsAfterAccept(c: Config, accepted: seq<real>, i: nat, u: real, t: real, x: real)
    requires i < |accepted|
    ensures Fits(c, accepted + [u], i, t, x) <==> Fits(c, accepted, i, u, x + 1.0 - (t - u) * c.rate)
  {
    assert (accepted + [u])[i] == accepted[i];
    Distribute(c.rate, t - u, u - accepted[i]);
    assert (t - u) + (u - accepted[i]) == t - accepted[i];
  }

  lemma FitsNewest(c: Config, accepted: seq<real>, u: real, t: real, x: real)
    ensures Fits(c, accepted + [u], |accepted|, t, x) <==> x + 1.0 - (t - u) * c.rate <= c.capacity
  {
    var longer := accepted + [u];
    var growth := (t - u) * c.rate;
    assert longer[|accepted|] == u;
    assert |longer| - |accepted| == 1;
    assert Allowance(c, t - longer[|accepted|]) == c.capacity + growth;
  }

  lemma SlackAfterAccept(c: Config, accepted: seq<real>, u: real, t: real, x: real)
    ensures Slack(c, accepted + [u], t, x)
       <==> x <= c.capacity && Slack(c, accepted, u, x + 1.0 - (t - u) * c.rate)
  {
    var longer, y := accepted + [u], x + 1.0 - (t - u) * c.rate;
    FitsNewest(c, accepted, u, t, x);
    if Slack(c, longer, t, x) {
      forall i | 0 <= i < |accepted| ensures Fits(c, accepted, i, u, y) {
        FitsAfterAccept(c, accepted, i, u, t, x);
        assert Fits(c, longer, i, t, x);
      }
    }
    if x <= c.capacity && Slack(c, accepted, u, y) {
      forall i | 0 <= i < |longer| ensures Fits(c, longer, i, t, x) {
        if i < |accepted| {
          FitsAfterAccept(c, accepted, i, u, t, x);
          assert Fits(c, accepted, i, u, y);
        }
      }
    }
  }

  /** What is left at t of a level that was debited at u. */
  lemma LevelAfterAccept(c: Config, s: State, u: real, t: real, x: real)
    requires c.rate >= 0.0 && s.updatedAt <= u <= t
    requires Acquire(c, s, u).1
    ensures x <= Refill(c, Acquire(c, s, u).0, t).tokens
       <==> x <= c.capacity && x + 1.0 - (t - u) * c.rate <= Refill(c, s, u).tokens
  {
    var rest := Acquire(c, s, u).0;
    assert rest == State(Refill(c, s, u).tokens - 1.0, u);
    assert Max(0.0, t - rest.updatedAt) == t - u;
  }

  /** After any arrivals, at any later time t, the bucket holds at least x exactly when the curve leaves x. */
  lemma {:induction false} LevelIsSlack(c: Config, start: real, arrivals: seq<real>, t: real, x: real)
    requires c.rate >= 0.0 && Monotone(start, arrivals)
    requires Run(c, start, arrivals).0.updatedAt <= t
    ensures var (s, accepted) := Run(c, start, arrivals);
            x <= Refill(c, s, t).tokens <==> Slack(c, accepted, t, x)
  {
    if arrivals == [] {
      Growing(c.rate, t - start);
    } else {
      var last := |arrivals| - 1;
      var u := arrivals[last];
      var (s, accepted) := Run(c, start, arrivals[..last]);
      assert s.updatedAt <= u <= t by {
        RunTimes(c, start, arrivals[..last]);
        assert forall i :: 0 <= i < last ==> arrivals[..last][i] == arrivals[i];
      }
      if Acquire(c, s, u).1 {
        LevelIsSlack(c, start, arrivals[..last], u, x + 1.0 - (t - u) * c.rate);
        SlackAfterAccept(c, accepted, u, t, x);
        LevelAfterAccept(c, s, u, t, x);
      } else {
        RefillComposes(c, s, u, t);
        LevelIsSlack(c, start, arrivals[..last], t, x);
      }
    }
  }

  // ---------------------------------------------------------------------------------------------
  // From positions to windows of time
  // ---------------------------------------------------------------------------------------------

  /** In a sorted log the window from the i-th entry holds at least the entries from i on. */
  lemma {:induction false} CountFromPosition(accepted: seq<real>, i: nat)
    requires i < |accepted|
    requires forall a, b :: 0 <= a < b < |accepted| ==> accepted[a] <= accepted[b]
    ensures CountFrom(accepted, accepted[i]) >= |accepted| - i
    ensures (i == 0 || accepted[i - 1] < accepted[i]) ==> CountFrom(accepted, accepted[i]) == |accepted| - i
  {
    var last := |accepted| - 1;
    if i < last {
      CountFromPosition(accepted[..last], i);
    } else {
      NoneFrom(accepted[..last], accepted[last]);
    }
  }

  lemma {:induction false} NoneFrom(accepted: seq<real>, s: real)
    ensures (forall i :: 0 <= i < |accepted| ==> accepted[i] < s) ==> CountFrom(accepted, s) == 0
  {
    if accepted != [] {
      var last := |accepted| - 1;
      NoneFrom(accepted[..last], s);
      if forall i :: 0 <= i < |accepted| ==> accepted[i] < s {
        assert forall i :: 0 <= i < last ==> accepted[..last][i] == accepted[i];
      }
    }
  }

  /** The first position that holds the same time. */
  function FirstOf(accepted: seq<real>, i: nat): (j: nat)
    requires i < |accepted|
    requires forall a, b :: 0 <= a < b < |accepted| ==> accepted[a] <= accepted[b]
    ensures j <= i && accepted[j] == accepted[i]
    ensures j == 0 || accepted[j - 1] < accepted[j]
  {
    if i == 0 || accepted[i - 1] < accepted[i] then i else FirstOf(accepted, i - 1)
  }

  lemma CurveIsSlackOfOne(c: Config, accepted: seq<real>, t: real)
    requires forall a, b :: 0 <= a < b < |accepted| ==> accepted[a] <= accepted[b]
    ensures ConformsToCurve(c, accepted, t) <==> Slack(c, accepted, t, 1.0)
  {
    if ConformsToCurve(c, accepted, t) {
      forall i | 0 <= i < |accepted|
        ensures Fits(c, accepted, i, t, 1.0)
      {
        assert accepted[i] in accepted;
        CountFromPosition(accepted, i);
      }
    }
    if Slack(c, accepted, t, 1.0) {
      forall s | s in accepted
        ensures (CountFrom(accepted, s) + 1) as real <= Allowance(c, t - s)
      {
        var i :| 0 <= i < |accepted| && accepted[i] == s;
        var j := FirstOf(accepted, i);
        CountFromPosition(accepted, j);
        assert Fits(c, accepted, j, t, 1.0);
      }
    }
  }

  /** The lazy bucket decides exactly the arrival curve. */
  lemma DecidesArrivalCurve(c: Config, start: real, arrivals: seq<real>, t: real)
    requires c.rate >= 0.0 && Monotone(start, arrivals + [t])
    ensures Accepts(c, start, arrivals, t) <==> ConformsToCurve(c, Run(c, start, arrivals).1, t)
  {
    var all := arrivals + [t];
    assert all[|arrivals|] == t;
    assert forall i :: 0 <= i < |arrivals| ==> all[i] == arrivals[i];
    RunTimes(c, start, arrivals);
    LevelIsSlack(c, start, arrivals, t, 1.0);
    CurveIsSlackOfOne(c, Run(c, start, arrivals).1, t);
  }

  /** The last arrival of a run, and the ones before it. */
  lemma RunLast(c: Config, start: real, arrivals: seq<real>, t: real)
    ensures Run(c, start, arrivals + [t]).1
         == if Accepts(c, start, arrivals, t) then Run(c, start, arrivals).1 + [t] else Run(c, start, arrivals).1
  {
    assert (arrivals + [t])[..|arrivals|] == arrivals;
  }

  /** Two runs that accepted the same times decide the next request alike. */
  lemma SameAcceptedSameDecision(c: Config, start: real, one: seq<real>, two: seq<real>, t: real)
    requires c.rate >= 0.0 && Monotone(start, one + [t]) && Monotone(start, two + [t])
    requires Run(c, start, one).1 == Run(c, start, two).1
    ensures Run(c, start, one + [t]).1 == Run(c, start, two + [t]).1
  {
    DecidesArrivalCurve(c, start, one, t);
    DecidesArrivalCurve(c, start, two, t);
    RunLast(c, start, one, t);
    RunLast(c, start, two, t);
  }

  lemma MonotoneParts(start: real, before: seq<real>, u: real, after: seq<real>)
    requires Monotone(start, before + [u] + after)
    ensures Monotone(start, before + after)
    ensures after != [] ==> Monotone(start, before + [u] + after[..|after| - 1])
  {
    var whole, less := before + [u] + after, before + after;
    assert forall i :: 0 <= i < |less| ==> less[i] == whole[if i < |before| then i else i + 1];
    if after != [] {
      var shorter := before + [u] + after[..|after| - 1];
      assert forall i :: 0 <= i < |shorter| ==> shorter[i] == whole[i];
    }
  }

  /** A refused request never changes a later decision: without it exactly the same requests are accepted. */
  lemma {:induction false} RefusalLeavesNoTrace(c: Config, start: real, before: seq<real>, u: real, after: seq<real>)
    requires c.rate >= 0.0 && Monotone(start, before + [u] + after)
    requires !Accepts(c, start, before, u)
    ensures Run(c, start, before + [u] + after).1 == Run(c, start, before + after).1
  {
    MonotoneParts(start, before, u, after);
    if after == [] {
      assert before + [u] + after == before + [u] && before + after == before;
      RunLast(c, start, before, u);
    } else {
      var m := |after| - 1;
      RefusalLeavesNoTrace(c, start, before, u, after[..m]);
      assert before + [u] + after == (before + [u] + after[..m]) + [after[m]];
      assert before + after == (before + after[..m]) + [after[m]];
      SameAcceptedSameDecision(c, start, before + [u] + after[..m], before + after[..m], after[m]);
    }
  }
}
