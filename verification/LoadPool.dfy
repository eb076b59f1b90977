/** The worker pool of the load generator (control_plane/evaluation/load.py:184-247) as a state machine. A worker
    suspends only while it posts: the sample lock is never held across a suspension, so taking it never waits. The
    model lets another worker in after every queue access as well, which only adds interleavings. */
module LoadPool {
  import opened Contracts
  import opened LoadReport

  datatype Worker = Ready | Posting(number: nat) | Finished

  /** A sample and the request number it answers. */
  datatype Entry = Entry(number: nat, sample: Sample)

  datatype Pool = Pool(queue: seq<nat>, workers: seq<Worker>, samples: seq<Entry>)

  /** One worker moves on; `sample` is what its request came to, if it has one under way. */
  datatype Turn = Turn(worker: nat, sample: Sample)

  function AtLeastZero(n: int): nat {
    if n < 0 then 0 else n
  }

  function Numbers(requests: nat): (numbers: seq<nat>)
    ensures |numbers| == requests && forall i :: 0 <= i < requests ==> numbers[i] == i
  {
    seq(requests, i => i)
  }

  function WorkerCount(requests: int, concurrency: int): nat {
    AtLeastZero(if concurrency < requests then concurrency else requests)
  }

  function Start(requests: int, concurrency: int): Pool {
    Pool(Numbers(AtLeastZero(requests)), seq(WorkerCount(requests, concurrency), _ => Ready), [])
  }

  predicate Enabled(pool: Pool, turn: Turn) {
    turn.worker < |pool.workers| && !pool.workers[turn.worker].Finished?
  }

  function Step(pool: Pool, turn: Turn): Pool
    requires Enabled(pool, turn)
  {
    match pool.workers[turn.worker]
    case Ready =>
      if pool.queue == [] then
        pool.(workers := pool.workers[turn.worker := Finished])
      else
        pool.(queue := pool.queue[1..], workers := pool.workers[turn.worker := Posting(pool.queue[0])])
    case Posting(number) =>
      pool.(workers := pool.workers[turn.worker := Ready], samples := pool.samples + [Entry(number, turn.sample)])
  }

  /** `after` is reached from the start by these turns, each of a worker that still had something to do. */
  ghost predicate Reaches(requests: int, concurrency: int, turns: seq<Turn>, after: Pool)
    decreases |turns|
  {
    if turns == [] then after == Start(requests, concurrency)
    else
      var last := turns[|turns| - 1];
      exists before :: Reaches(requests, concurrency, turns[..|turns| - 1], before) &&
                       Enabled(before, last) && after == Step(before, last)
  }

  predicate AllFinished(pool: Pool) {
    forall w :: 0 <= w < |pool.workers| ==> pool.workers[w].Finished?
  }

  // ---------------------------------------------------------------------------------------------
  // Where the request numbers are
  // ---------------------------------------------------------------------------------------------

  function Holds(worker: Worker, number: nat): nat {
    if worker == Posting(number) then 1 else 0
  }

  function Held(workers: seq<Worker>, number: nat): nat {
    if workers == [] then 0 else Holds(workers[0], number) + Held(workers[1..], number)
  }

  function Sampled(samples: seq<Entry>, number: nat): nat {
    if samples == [] then 0
    else Sampled(samples[..|samples| - 1], number) + if samples[|samples| - 1].number == number then 1 else 0
  }

  function Posts(worker: Worker): nat {
    if worker.Posting? then 1 else 0
  }

  function UnderWay(workers: seq<Worker>): (count: nat)
    ensures count <= |workers|
  {
    if workers == [] then 0 else Posts(workers[0]) + UnderWay(workers[1..])
  }

  function Stays(worker: Worker): nat {
    if worker.Finished? then 0 else 1
  }

  function Unfinished(workers: seq<Worker>): nat {
    if workers == [] then 0 else Stays(workers[0]) + Unfinished(workers[1..])
  }

  lemma {:induction false} HeldUpdate(workers: seq<Worker>, w: nat, worker: Worker, number: nat)
    requires w < |workers|
    ensures Held(workers[w := worker], number)
         == Held(workers, number) - Holds(workers[w], number) + Holds(worker, number)
  {
    if w == 0 {
      assert workers[w := worker][1..] == workers[1..];
    } else {
      HeldUpdate(workers[1..], w - 1, worker, number);
      assert workers[w := worker][1..] == workers[1..][w - 1 := worker];
    }
  }

  lemma {:induction false} CountsUpdate(workers: seq<Worker>, w: nat, worker: Worker)
    requires w < |workers|
    ensures UnderWay(workers[w := worker]) == UnderWay(workers) - Posts(workers[w]) + Posts(worker)
    ensures Unfinished(workers[w := worker]) == Unfinished(workers) - Stays(workers[w]) + Stays(worker)
  {
    if w == 0 {
      assert workers[w := worker][1..] == workers[1..];
    } else {
      CountsUpdate(workers[1..], w - 1, worker);
      assert workers[w := worker][1..] == workers[1..][w - 1 := worker];
    }
  }

  /** In how many places a request number is: waiting, held by a worker, or sampled. */
  function Places(pool: Pool, number: nat): nat {
    multiset(pool.queue)[number] + Held(pool.workers, number) + Sampled(pool.samples, number)
  }

  /** Every request number is in exactly one place and nothing else is anywhere; the waiting ones are the last of the
      row, in order; and a worker has only gone home when none was waiting. */
  ghost predicate Partitioned(pool: Pool, requests: nat) {
    && (forall number: nat :: Places(pool, number) == if number < requests then 1 else 0)
    && |pool.queue| + UnderWay(pool.workers) + |pool.samples| == requests
    && pool.queue == Numbers(requests)[requests - |pool.queue|..]
    && (pool.queue != [] ==> forall w :: 0 <= w < |pool.workers| ==> !pool.workers[w].Finished?)
  }

  /** The turns still to come. */
  function Work(pool: Pool): nat {
    2 * |pool.queue| + UnderWay(pool.workers) + Unfinished(pool.workers)
  }

  lemma {:induction false} AllReady(n: nat, number: nat)
    ensures var workers := seq(n, _ => Ready);
            Held(workers, number) == 0 && UnderWay(workers) == 0 && Unfinished(workers) == n
  {
    if n > 0 {
      AllReady(n - 1, number);
      assert seq(n, _ => Ready)[1..] == seq(n - 1, _ => Ready);
    }
  }

  lemma {:induction false} NumbersOnce(requests: nat, number: nat)
    ensures multiset(Numbers(requests))[number] == if number < requests then 1 else 0
  {
    if requests > 0 {
      NumbersOnce(requests - 1, number);
      assert Numbers(requests) == Numbers(requests - 1) + [requests - 1];
    }
  }

  lemma StartIsPartitioned(requests: int, concurrency: int)
    ensures Partitioned(Start(requests, concurrency), AtLeastZero(requests))
    ensures Work(Start(requests, concurrency)) == 2 * AtLeastZero(requests) + WorkerCount(requests, concurrency)
  {
    var n := AtLeastZero(requests);
    AllReady(WorkerCount(requests, concurrency), 0);
    forall number: nat ensures Places(Start(requests, concurrency), number) == if number < n then 1 else 0 {
      AllReady(WorkerCount(requests, concurrency), number);
      NumbersOnce(n, number);
    }
    assert Numbers(n) == Numbers(n)[0..];
  }

  lemma StepMovesNumber(pool: Pool, turn: Turn, number: nat)
    requires Enabled(pool, turn)
    ensures Places(Step(pool, turn), number) == Places(pool, number)
  {
    var w, after := turn.worker, Step(pool, turn);
    HeldUpdate(pool.workers, w, after.workers[w], number);
    if pool.workers[w].Posting? {
      assert after.samples[..|pool.samples|] == pool.samples;
    } else if pool.queue != [] {
      assert pool.queue == [pool.queue[0]] + pool.queue[1..];
    }
  }

  lemma StepKeepsPartition(pool: Pool, turn: Turn, requests: nat)
    requires Partitioned(pool, requests) && Enabled(pool, turn)
    ensures Partitioned(Step(pool, turn), requests)
    ensures |Step(pool, turn).workers| == |pool.workers|
    ensures Work(Step(pool, turn)) == Work(pool) - 1
  {
    hide Places;
    CountsUpdate(pool.workers, turn.worker, Step(pool, turn).workers[turn.worker]);
    forall number: nat ensures Places(Step(pool, turn), number) == if number < requests then 1 else 0 {
      StepMovesNumber(pool, turn, number);
    }
  }

  /** At every point of every interleaving: the numbers are partitioned, no more than `concurrency` are under way,
      and the turns taken and the turns left always add up to the same total. */
  lemma {:induction false} EveryPoint(requests: int, concurrency: int, turns: seq<Turn>, pool: Pool)
    requires Reaches(requests, concurrency, turns, pool)
    ensures Partitioned(pool, AtLeastZero(requests))
    ensures |pool.workers| == WorkerCount(requests, concurrency)
    ensures UnderWay(pool.workers) <= AtLeastZero(concurrency)
    ensures |turns| + Work(pool) == 2 * AtLeastZero(requests) + WorkerCount(requests, concurrency)
    decreases |turns|
  {
    hide Partitioned;
    hide Work;
    if turns == [] {
      StartIsPartitioned(requests, concurrency);
    } else {
      var front, last := turns[..|turns| - 1], turns[|turns| - 1];
      var before :|
        Reaches(requests, concurrency, front, before) && Enabled(before, last) && pool == Step(before, last);
      EveryPoint(requests, concurrency, front, before);
      StepKeepsPartition(before, last, AtLeastZero(requests));
    }
  }

  /** No worker waits for another: the pool can move until every worker has finished. */
  lemma NeverStuck(pool: Pool)
    ensures AllFinished(pool) <==> forall turn :: !Enabled(pool, turn)
  {
    if !AllFinished(pool) {
      var w :| 0 <= w < |pool.workers| && !pool.workers[w].Finished?;
      assert Enabled(pool, Turn(w, Sample(0, 0.0, None, 0.0, 0)));
    }
  }

  lemma {:induction false} FinishedHoldNothing(workers: seq<Worker>, number: nat)
    requires forall w :: 0 <= w < |workers| ==> workers[w].Finished?
    ensures Held(workers, number) == 0 && UnderWay(workers) == 0 && Unfinished(workers) == 0
  {
    if workers != [] {
      FinishedHoldNothing(workers[1..], number);
    }
  }

  ghost predicate SampledOnce(requests: int, samples: seq<Entry>) {
    forall number: nat :: Sampled(samples, number) == if number < requests then 1 else 0
  }

  /** With nothing waiting and every worker home, every number that is anywhere is sampled. */
  lemma AllSampled(pool: Pool, requests: nat)
    requires Partitioned(pool, requests) && AllFinished(pool) && pool.queue == []
    ensures SampledOnce(requests, pool.samples) && |pool.samples| == requests
  {
    FinishedHoldNothing(pool.workers, 0);
    forall number: nat ensures Sampled(pool.samples, number) == if number < requests then 1 else 0 {
      FinishedHoldNothing(pool.workers, number);
      assert Places(pool, number) == Sampled(pool.samples, number);
    }
  }

  /** A worker only goes home when nothing is waiting, and without requests nothing ever is. */
  lemma NothingWaits(pool: Pool, requests: nat)
    requires Partitioned(pool, requests) && AllFinished(pool) && (pool.workers != [] || requests == 0)
    ensures pool.queue == []
  {
    if pool.workers != [] {
      assert pool.workers[0].Finished?;
    }
  }

  lemma DoneInAllTurns(pool: Pool)
    requires AllFinished(pool) && pool.queue == []
    ensures Work(pool) == 0
  {
    FinishedHoldNothing(pool.workers, 0);
  }

  lemma WithWorkers(requests: int, concurrency: int, turns: seq<Turn>, pool: Pool)
    requires Reaches(requests, concurrency, turns, pool) && AllFinished(pool) && (concurrency >= 1 || requests <= 0)
    ensures SampledOnce(requests, pool.samples) && |pool.samples| == AtLeastZero(requests)
    ensures |turns| == 2 * AtLeastZero(requests) + WorkerCount(requests, concurrency)
  {
    hide Partitioned;
    hide Work;
    hide SampledOnce;
    hide Reaches;
    EveryPoint(requests, concurrency, turns, pool);
    NothingWaits(pool, AtLeastZero(requests));
    AllSampled(pool, AtLeastZero(requests));
    SameRange(requests, pool.samples);
    DoneInAllTurns(pool);
  }

  lemma SameRange(requests: int, samples: seq<Entry>)
    ensures SampledOnce(AtLeastZero(requests), samples) <==> SampledOnce(requests, samples)
  {
  }

  lemma WithoutWorkers(requests: int, concurrency: int, turns: seq<Turn>, pool: Pool)
    requires Reaches(requests, concurrency, turns, pool) && concurrency < 1 && requests > 0
    ensures pool.samples == [] && turns == [] && !SampledOnce(requests, pool.samples)
  {
    hide Reaches;
    NoWorkerNoTurn(requests, concurrency, turns, pool);
    assert Sampled(pool.samples, 0) == 0;
  }

  /** When the pool is done, the request numbers sampled are exactly those there were, each once — unless there was no
      worker for them, and then there is no sample at all. It took two turns a request and one a worker. */
  lemma ExactlyOnceExactlyWhen(requests: int, concurrency: int, turns: seq<Turn>, pool: Pool)
    requires Reaches(requests, concurrency, turns, pool) && AllFinished(pool)
    ensures SampledOnce(requests, pool.samples) <==> concurrency >= 1 || requests <= 0
    ensures |pool.samples| == if concurrency >= 1 then AtLeastZero(requests) else 0
    ensures |turns| == if concurrency >= 1 then 2 * AtLeastZero(requests) + WorkerCount(requests, concurrency) else 0
  {
    hide Reaches;
    hide SampledOnce;
    if concurrency >= 1 || requests <= 0 {
      WithWorkers(requests, concurrency, turns, pool);
    } else {
      WithoutWorkers(requests, concurrency, turns, pool);
    }
  }

  lemma {:induction false} NoWorkerNoTurn(requests: int, concurrency: int, turns: seq<Turn>, pool: Pool)
    requires Reaches(requests, concurrency, turns, pool) && WorkerCount(requests, concurrency) == 0
    ensures pool.samples == [] && turns == []
  {
    if turns != [] {
      var front, last := turns[..|turns| - 1], turns[|turns| - 1];
      var before :|
        Reaches(requests, concurrency, front, before) && Enabled(before, last) && pool == Step(before, last);
      EveryPoint(requests, concurrency, front, before);
      assert false;
    }
  }

  function Samples(entries: seq<Entry>): (samples: seq<Sample>)
    ensures |samples| == |entries|
  {
    seq(|entries|, i requires 0 <= i < |entries| => entries[i].sample)
  }

  /** The summary of a finished run has one sample for each request that was asked for, and fails as many as did not
      end in a 200. */
  lemma FinishedRunIsComplete(
    profile: string, repetition: int, requests: int, concurrency: int, duration: real, turns: seq<Turn>, pool: Pool)
    requires Reaches(requests, concurrency, turns, pool) && AllFinished(pool) && concurrency >= 1
    ensures var run := Summarize(profile, repetition, concurrency, duration, Samples(pool.samples));
            run.requests == AtLeastZero(requests) && run.successful + run.failed == run.requests
  {
    ExactlyOnceExactlyWhen(requests, concurrency, turns, pool);
  }

  // ---------------------------------------------------------------------------------------------
  // As many workers as there is room and work for
  // ---------------------------------------------------------------------------------------------

  /** At the start all requests wait, in order, before min(concurrency, requests) workers. */
  lemma WorkersStart(requests: int, concurrency: int)
    ensures var pool := Start(requests, concurrency);
            && |pool.workers| <= AtLeastZero(concurrency) && |pool.workers| <= AtLeastZero(requests)
            && (|pool.workers| == AtLeastZero(concurrency) || |pool.workers| == AtLeastZero(requests))
            && (forall w :: 0 <= w < |pool.workers| ==> pool.workers[w] == Ready)
            && |pool.queue| == AtLeastZero(requests)
            && (forall i :: 0 <= i < |pool.queue| ==> pool.queue[i] == i)
            && pool.samples == []
  {
  }

  lemma ReachesOneMore(requests: int, concurrency: int, turns: seq<Turn>, before: Pool, turn: Turn)
    requires Reaches(requests, concurrency, turns, before) && Enabled(before, turn)
    ensures Reaches(requests, concurrency, turns + [turn], Step(before, turn))
  {
    var all := turns + [turn];
    assert all[|all| - 1] == turn && all[..|all| - 1] == turns;
    assert Reaches(requests, concurrency, all[..|all| - 1], before);
  }

  lemma {:induction false} Busy(requests: int, concurrency: int, n: nat) returns (turns: seq<Turn>, pool: Pool)
    requires n <= WorkerCount(requests, concurrency)
    ensures Reaches(requests, concurrency, turns, pool) && UnderWay(pool.workers) == n
    ensures |pool.workers| == WorkerCount(requests, concurrency)
    ensures forall w :: n <= w < |pool.workers| ==> pool.workers[w] == Ready
    ensures |pool.queue| == AtLeastZero(requests) - n
  {
    if n == 0 {
      turns, pool := [], Start(requests, concurrency);
      AllReady(WorkerCount(requests, concurrency), 0);
    } else {
      var before, front;
      front, before := Busy(requests, concurrency, n - 1);
      var turn := Turn(n - 1, Sample(0, 0.0, None, 0.0, 0));
      CountsUpdate(before.workers, n - 1, Posting(before.queue[0]));
      turns, pool := front + [turn], Step(before, turn);
      ReachesOneMore(requests, concurrency, front, before, turn);
    }
  }

  /** And that many requests can be under way at once: the bound is reached. */
  lemma BoundIsReached(requests: int, concurrency: int)
    ensures exists turns, pool :: Reaches(requests, concurrency, turns, pool) &&
                                  UnderWay(pool.workers) == WorkerCount(requests, concurrency)
  {
    hide Reaches;
    hide WorkerCount;
    var turns, pool := Busy(requests, concurrency, WorkerCount(requests, concurrency));
    assert Reaches(requests, concurrency, turns, pool) &&
           UnderWay(pool.workers) == WorkerCount(requests, concurrency);
  }

  /** The samples are outcomes of requests, each of another turn and in the order of the turns. */
  ghost predicate Brought(samples: seq<Entry>, turns: seq<Turn>) {
    if samples == [] then true
    else
      && turns != []
      && var front := turns[..|turns| - 1];
      || Brought(samples, front)
      || (samples[|samples| - 1].sample == turns[|turns| - 1].sample && Brought(samples[..|samples| - 1], front))
  }

  lemma {:induction false} EverySampleWasBrought(requests: int, concurrency: int, turns: seq<Turn>, pool: Pool)
    requires Reaches(requests, concurrency, turns, pool)
    ensures Brought(pool.samples, turns)
    decreases |turns|
  {
    if turns != [] {
      var front, last := turns[..|turns| - 1], turns[|turns| - 1];
      var before :|
        Reaches(requests, concurrency, front, before) && Enabled(before, last) && pool == Step(before, last);
      EverySampleWasBrought(requests, concurrency, front, before);
      if pool.samples != before.samples {
        assert pool.samples[..|pool.samples| - 1] == before.samples;
      }
    }
  }
}
