/** Idempotent replay over runs of the gateway (control_plane/main.py:285-326 and 421-427), with any number of other
    requests in progress.  The gateway keeps no record of a request in progress, so what is stored is only final when
    no second request of the same client and key is on its way (main.py:296-304). */
module Replays {
  import opened Contracts
  import opened Routing
  import opened ResponseCache
  import opened Idempotency
  import opened Gateway
  import opened Accounting
  import opened Service
  import KeyValue
  import Telemetry

  /** The request shares the record of this raw key. */
  predicate Shares(j: Job, raw: string) {
    Keyed(j.visit) && RawKeyOf(j.visit) == raw
  }

  /** Past the replay check, and not finished. */
  predicate UnderWay(j: Job) {
    !j.phase.Arrived? && !j.phase.Done?
  }

  predicate Holds(b: Backend, raw: string, entry: KeyValue.Entry<Payload<Completion>>) {
    IdempotencyKey(raw) in b && b[IdempotencyKey(raw)] == entry
  }

  predicate SameRecord(one: Backend, two: Backend, raw: string) {
    && (IdempotencyKey(raw) in one <==> IdempotencyKey(raw) in two)
    && (IdempotencyKey(raw) in one ==> one[IdempotencyKey(raw)] == two[IdempotencyKey(raw)])
  }

  // ---------------------------------------------------------------------------------------------
  // Other requests
  // ---------------------------------------------------------------------------------------------

  lemma OtherKeysUnaffected(b: Backend, op: KeyValue.Op<Key, Payload<Completion>>, raw: string)
    requires op.key != IdempotencyKey(raw)
    ensures SameRecord(b, KeyValue.Step(b, op).0, raw)
  {
  }

  /** A step of a request of another client and key, or of none, neither creates nor changes nor removes a record;
      nor does any step after the replay check and before the answer. */
  lemma OthersAreUnaffected(c: Config, j: Job, s: Shared, e: Env, raw: string)
    requires !Shares(j, raw) || (!j.phase.Arrived? && !j.phase.Answering?)
    ensures SameRecord(s.backend, Advance(c, j, s, e).shared.backend, raw)
  {
    hide KeyValue.Step;
    hide Select;
    hide Rejection;
    hide Judge;
    match j.phase {
      case Arrived =>
        if Keyed(j.visit) {
          OtherKeysUnaffected(s.backend, KeyValue.Read(IdempotencyKey(RawKeyOf(j.visit)), e.at, e.fails), raw);
        }
      case Looking(d, _) =>
        var key := ResponseKey(MaterialOf(j.visit.request, d.provider.name));
        OtherKeysUnaffected(s.backend, KeyValue.Read(key, e.at, e.fails), raw);
      case Filling(d, result) =>
        var key := ResponseKey(MaterialOf(j.visit.request, d.provider.name));
        OtherKeysUnaffected(s.backend, KeyValue.Write(key, ResultPayload(result), c.cacheTtl, e.at, e.fate), raw);
      case Answering(_, _, _) =>
        var body := BodyOf(j.visit.requestId, j.visit.request, OutcomeOf(j));
        if Keyed(j.visit) {
          var payload := RecordPayload(j.visit.request, body);
          OtherKeysUnaffected(
            s.backend, KeyValue.Write(IdempotencyKey(RawKeyOf(j.visit)), payload, c.recordTtl, e.at, e.fate), raw);
        }
      case _ =>
    }
  }

  // ---------------------------------------------------------------------------------------------
  // A record that stays
  // ---------------------------------------------------------------------------------------------

  /** What an arriving request makes of a live record. */
  lemma LiveRecordDecides(c: Config, j: Job, s: Shared, e: Env, entry: KeyValue.Entry<Payload<Completion>>)
    requires j == NewJob(j.visit) && Keyed(j.visit) && Holds(s.backend, RawKeyOf(j.visit), entry)
    requires entry.value.RecordPayload? && e.at < entry.expiresAt && !e.fails
    ensures var effect := Begin(c, j, s, e);
            && effect.shared == s && effect.job.phase.Done? && effect.job.writes == []
            && (Rejection(c.registry, j.visit).None? ==>
                  effect.job.phase.reply == (if j.visit.request == entry.value.fingerprint
                                             then ReplayedCompletion(entry.value.response)
                                             else ConflictRejected))
            && effect.records == if Rejection(c.registry, j.visit).None? && j.visit.request == entry.value.fingerprint
                                 then [Telemetry.Inference(EventOf(entry.value.response, Telemetry.Replay, e.latency))]
                                 else []
  {
    hide Rejection;
    var read := KeyValue.Read(IdempotencyKey(RawKeyOf(j.visit)), e.at, e.fails);
    assert KeyValue.Step(s.backend, read) == (s.backend, Some(entry.value));
    RejectionIsNoCompletion(c, j.visit);
  }

  lemma RejectionIsNoCompletion(c: Config, v: Visit)
    ensures var reply := Rejection(c.registry, v);
            reply.Some? ==> !reply.value.Completed? && !reply.value.ReplayedCompletion?
  {
  }

  ghost predicate NoneUnderWay(s: State, raw: string) {
    forall k :: 0 <= k < |s.jobs| && Shares(s.jobs[k], raw) ==> !UnderWay(s.jobs[k])
  }

  /** Requests that have arrived have not done anything yet. */
  ghost predicate ArrivalsAreNew(s: State) {
    forall k :: 0 <= k < |s.jobs| && s.jobs[k].phase.Arrived? ==> s.jobs[k] == NewJob(s.jobs[k].visit)
  }

  lemma AdvanceKeepsVisit(c: Config, j: Job, s: Shared, e: Env)
    ensures Advance(c, j, s, e).job.visit == j.visit
    ensures j.phase.Arrived? || !Advance(c, j, s, e).job.phase.Arrived?
    ensures j.phase.Arrived? ==> !Advance(c, j, s, e).job.phase.Arrived?
  {
    hide Select;
    hide Rejection;
    hide KeyValue.Step;
  }

  lemma StepKeepsNew(c: Config, s: State, e: Action)
    requires ArrivalsAreNew(s) && Enabled(s, e)
    ensures ArrivalsAreNew(Step(c, s, e))
  {
    hide Advance;
    if e.Move? {
      AdvanceKeepsVisit(c, s.jobs[e.job], s.shared, e.env);
    }
  }

  /** Reading the backend does not fail. */
  predicate Working(e: Action) {
    e.Move? ==> !e.env.fails
  }

  lemma StepKeepsRecord(c: Config, s: State, e: Action, raw: string, entry: KeyValue.Entry<Payload<Completion>>)
    requires Holds(s.shared.backend, raw, entry) && entry.value.RecordPayload?
    requires NoneUnderWay(s, raw) && ArrivalsAreNew(s) && Enabled(s, e) && Working(e)
    requires e.Move? ==> e.env.at < entry.expiresAt
    ensures Holds(Step(c, s, e).shared.backend, raw, entry) && NoneUnderWay(Step(c, s, e), raw)
  {
    hide Advance;
    if e.Move? {
      var j := s.jobs[e.job];
      AdvanceKeepsVisit(c, j, s.shared, e.env);
      if Shares(j, raw) {
        ArrivedConcludes(c, j, s.shared, e.env, entry);
      } else {
        OthersAreUnaffected(c, j, s.shared, e.env, raw);
      }
    }
  }

  lemma ArrivedConcludes(c: Config, j: Job, s: Shared, e: Env, entry: KeyValue.Entry<Payload<Completion>>)
    requires j == NewJob(j.visit) && Keyed(j.visit) && Holds(s.backend, RawKeyOf(j.visit), entry)
    requires entry.value.RecordPayload? && e.at < entry.expiresAt && !e.fails
    ensures Advance(c, j, s, e).shared == s && Advance(c, j, s, e).job.phase.Done?
  {
    hide Begin;
    LiveRecordDecides(c, j, s, e, entry);
  }

  lemma ClockNeverGoesBack(c: Config, s: State, e: Action)
    requires Enabled(s, e)
    ensures s.now <= Step(c, s, e).now
    ensures e.Move? ==> Step(c, s, e).now == e.env.at
  {
    hide Advance;
  }

  /** A record stays through every run in which its key is read without failure, whatever is written under other keys
      and whichever writes are lost, until its time to live has elapsed. */
  lemma {:induction false} RecordStays(
    c: Config, before: State, events: seq<Action>, after: State, raw: string,
    entry: KeyValue.Entry<Payload<Completion>>)
    requires Holds(before.shared.backend, raw, entry) && entry.value.RecordPayload?
    requires NoneUnderWay(before, raw) && ArrivalsAreNew(before)
    requires Leads(c, before, events, after) && forall i :: 0 <= i < |events| ==> Working(events[i])
    requires after.now < entry.expiresAt
    ensures Holds(after.shared.backend, raw, entry) && NoneUnderWay(after, raw) && ArrivalsAreNew(after)
    decreases |events|
  {
    hide Step;
    hide Holds;
    hide NoneUnderWay;
    hide ArrivalsAreNew;
    hide Working;
    if events != [] {
      var last := events[|events| - 1];
      var s :| Leads(c, before, events[..|events| - 1], s) && Enabled(s, last) && after == Step(c, s, last);
      ClockNeverGoesBack(c, s, last);
      RecordStays(c, before, events[..|events| - 1], s, raw, entry);
      StepKeepsRecord(c, s, last, raw, entry);
      StepKeepsNew(c, s, last);
    }
  }

  /** The record that a request leaves when it is answered. */
  function RecordOf(c: Config, j: Job, at: real): KeyValue.Entry<Payload<Completion>>
    requires j.phase.Answering?
  {
    var body := BodyOf(j.visit.requestId, j.visit.request, OutcomeOf(j));
    KeyValue.Entry(at + c.recordTtl as real, RecordPayload(j.visit.request, body))
  }

  lemma AnswerStores(c: Config, s: State, i: nat, env: Env)
    requires ArrivalsAreNew(s) && Enabled(s, Move(i, env)) && s.jobs[i].phase.Answering?
    requires Keyed(s.jobs[i].visit) && !env.fate.Lost?
    requires forall k :: 0 <= k < |s.jobs| && k != i && Shares(s.jobs[k], RawKeyOf(s.jobs[i].visit)) ==>
                           !UnderWay(s.jobs[k])
    ensures var s1, raw := Step(c, s, Move(i, env)), RawKeyOf(s.jobs[i].visit);
            && Holds(s1.shared.backend, raw, RecordOf(c, s.jobs[i], env.at))
            && NoneUnderWay(s1, raw) && ArrivalsAreNew(s1)
            && s1.jobs[i].phase == Done(Completed(RecordOf(c, s.jobs[i], env.at).value.response))
  {
    hide BodyOf;
    StepKeepsNew(c, s, Move(i, env));
    var s1 := Step(c, s, Move(i, env));
    assert s1.jobs[i].phase.Done?;
  }

  /** Once a response is stored while no second request of its client and key is under way, every request of that
      client and key that reaches the replay check within the time to live gets exactly that response if it is the
      same request and a conflict otherwise, whatever other requests are doing.  It makes no routing decision, no call
      and no write: backend and round-robin index stay, and all that is recorded is the replay. */
  lemma StoredResponseIsReplayed(
    c: Config, start: real, s: State, i: nat, env: Env, events: seq<Action>, s': State, k: nat, env': Env)
    requires Reachable(c, start, s) && Enabled(s, Move(i, env)) && s.jobs[i].phase.Answering?
    requires Keyed(s.jobs[i].visit) && !env.fate.Lost?
    requires forall m :: 0 <= m < |s.jobs| && m != i && Shares(s.jobs[m], RawKeyOf(s.jobs[i].visit)) ==>
                           !UnderWay(s.jobs[m])
    requires Leads(c, Step(c, s, Move(i, env)), events, s') && forall n :: 0 <= n < |events| ==> Working(events[n])
    requires Enabled(s', Move(k, env')) && s'.jobs[k].phase.Arrived? && !env'.fails
    requires Shares(s'.jobs[k], RawKeyOf(s.jobs[i].visit)) && Rejection(c.registry, s'.jobs[k].visit).None?
    requires env'.at < env.at + c.recordTtl as real
    ensures var body := RecordOf(c, s.jobs[i], env.at).value.response;
            var same := s'.jobs[k].visit.request == s.jobs[i].visit.request;
            var s2 := Step(c, s', Move(k, env'));
            && s2.shared == s'.shared
            && s2.jobs[k].phase == Done(if same then ReplayedCompletion(body) else ConflictRejected)
            && s2.jobs[k].writes == []
            && (forall m :: 0 <= m < |s2.jobs| && m != k ==> s2.jobs[m] == s'.jobs[m])
            && s2.log == s'.log + if same
                                  then [Tagged(k, Telemetry.Inference(EventOf(body, Telemetry.Replay, env'.latency)))]
                                  else []
  {
    hide Leads;
    hide Reachable;
    hide Rejection;
    hide RecordOf;
    hide BodyOf;
    ReachableHasOrigins(c, start, s);
    var raw := RawKeyOf(s.jobs[i].visit);
    var entry := RecordOf(c, s.jobs[i], env.at);
    RecordOfIsRecord(c, s.jobs[i], env.at);
    AnswerStores(c, s, i, env);
    RecordStays(c, Step(c, s, Move(i, env)), events, s', raw, entry);
    ReplayStep(c, s', k, env', entry);
  }

  lemma RecordOfIsRecord(c: Config, j: Job, at: real)
    requires j.phase.Answering?
    ensures RecordOf(c, j, at).value.RecordPayload? && RecordOf(c, j, at).value.fingerprint == j.visit.request
    ensures RecordOf(c, j, at).expiresAt == at + c.recordTtl as real
  {
  }

  lemma ReplayStep(c: Config, s: State, k: nat, env: Env, entry: KeyValue.Entry<Payload<Completion>>)
    requires ArrivalsAreNew(s) && Enabled(s, Move(k, env)) && s.jobs[k].phase.Arrived? && Keyed(s.jobs[k].visit)
    requires Holds(s.shared.backend, RawKeyOf(s.jobs[k].visit), entry) && entry.value.RecordPayload?
    requires Rejection(c.registry, s.jobs[k].visit).None? && env.at < entry.expiresAt && !env.fails
    ensures var same := s.jobs[k].visit.request == entry.value.fingerprint;
            var s2 := Step(c, s, Move(k, env));
            && s2.shared == s.shared
            && s2.jobs[k].phase == Done(if same then ReplayedCompletion(entry.value.response) else ConflictRejected)
            && s2.jobs[k].writes == []
            && (forall m :: 0 <= m < |s2.jobs| && m != k ==> s2.jobs[m] == s.jobs[m])
            && s2.log ==
               s.log + if !same then []
                       else [Tagged(k, Telemetry.Inference(
                                         EventOf(entry.value.response, Telemetry.Replay, env.latency)))]
  {
    hide Begin;
    hide Rejection;
    hide EventOf;
    LiveRecordDecides(c, s.jobs[k], s.shared, env, entry);
    var effect := Begin(c, s.jobs[k], s.shared, env);
    assert Advance(c, s.jobs[k], s.shared, env) == effect;
    if effect.records != [] {
      assert TagAll(k, effect.records) == [Tagged(k, effect.records[0])];
    }
  }

  // ---------------------------------------------------------------------------------------------
  // Replays are genuine
  // ---------------------------------------------------------------------------------------------

  /** This request was served afresh, and this is its record. */
  predicate Recorded(j: Job, raw: string, payload: Payload<Completion>) {
    && Shares(j, raw)
    && j.phase.Done? && j.phase.reply.Completed?
    && payload == RecordPayload(j.visit.request, j.phase.reply.body)
  }

  ghost predicate HasOrigin(jobs: seq<Job>, raw: string, payload: Payload<Completion>) {
    exists i :: 0 <= i < |jobs| && Recorded(jobs[i], raw, payload)
  }

  ghost predicate RecordsHaveOrigins(b: Backend, jobs: seq<Job>) {
    forall raw :: IdempotencyKey(raw) in b ==> HasOrigin(jobs, raw, b[IdempotencyKey(raw)].value)
  }

  /** A replay or a conflict that a request got goes back to a request that was served afresh. */
  ghost predicate ReplyHasOrigin(j: Job, jobs: seq<Job>) {
    j.phase.Done? ==>
      match j.phase.reply
      case ReplayedCompletion(body) =>
        Keyed(j.visit) && HasOrigin(jobs, RawKeyOf(j.visit), RecordPayload(j.visit.request, body))
      case ConflictRejected =>
        Keyed(j.visit) &&
        exists owner, body :: owner != j.visit.request && HasOrigin(jobs, RawKeyOf(j.visit), RecordPayload(owner, body))
      case _ => true
  }

  ghost predicate Origins(s: State) {
    && ArrivalsAreNew(s)
    && RecordsHaveOrigins(s.shared.backend, s.jobs)
    && forall k :: 0 <= k < |s.jobs| ==> ReplyHasOrigin(s.jobs[k], s.jobs)
  }

  /** Finished requests stay as they are. */
  ghost predicate Grows(jobs: seq<Job>, jobs': seq<Job>) {
    && |jobs| <= |jobs'|
    && forall i :: 0 <= i < |jobs| && jobs[i].phase.Done? ==> jobs'[i] == jobs[i]
  }

  lemma OriginStays(jobs: seq<Job>, jobs': seq<Job>, raw: string, payload: Payload<Completion>)
    requires Grows(jobs, jobs') && HasOrigin(jobs, raw, payload)
    ensures HasOrigin(jobs', raw, payload)
  {
    var i :| 0 <= i < |jobs| && Recorded(jobs[i], raw, payload);
    assert Recorded(jobs'[i], raw, payload);
  }

  lemma ReplyOriginStays(j: Job, jobs: seq<Job>, jobs': seq<Job>)
    requires Grows(jobs, jobs') && ReplyHasOrigin(j, jobs)
    ensures ReplyHasOrigin(j, jobs')
  {
    hide HasOrigin;
    if j.phase.Done? {
      match j.phase.reply
      case ReplayedCompletion(body) =>
        OriginStays(jobs, jobs', RawKeyOf(j.visit), RecordPayload(j.visit.request, body));
      case ConflictRejected =>
        var owner, body :| owner != j.visit.request && HasOrigin(jobs, RawKeyOf(j.visit), RecordPayload(owner, body));
        OriginStays(jobs, jobs', RawKeyOf(j.visit), RecordPayload(owner, body));
      case _ =>
    }
  }

  /** What a step reads from the backend under the key of its request, and what it makes of it. */
  lemma BeginHasOrigin(c: Config, j: Job, s: Shared, e: Env, jobs: seq<Job>)
    requires j == NewJob(j.visit) && RecordsHaveOrigins(s.backend, jobs)
    ensures var effect := Begin(c, j, s, e);
            ReplyHasOrigin(effect.job, jobs) && RecordsHaveOrigins(effect.shared.backend, jobs)
    ensures !Begin(c, j, s, e).job.phase.Done? || !Begin(c, j, s, e).job.phase.reply.Completed?
  {
    hide Rejection;
    hide HasOrigin;
    RejectionIsNoReplay(c, j.visit);
    if Keyed(j.visit) {
      var key := IdempotencyKey(RawKeyOf(j.visit));
      var (backend, found) := KeyValue.Step(s.backend, KeyValue.Read(key, e.at, e.fails));
      assert forall other :: other in backend ==> other in s.backend && backend[other] == s.backend[other];
      if found.Some? {
        assert HasOrigin(jobs, RawKeyOf(j.visit), found.value);
        OriginIsRecord(jobs, RawKeyOf(j.visit), found.value);
      }
    }
  }

  lemma RejectionIsNoReplay(c: Config, v: Visit)
    ensures var reply := Rejection(c.registry, v);
            reply.Some? ==>
              !reply.value.Completed? && !reply.value.ReplayedCompletion? && !reply.value.ConflictRejected?
  {
  }

  lemma OriginIsRecord(jobs: seq<Job>, raw: string, payload: Payload<Completion>)
    requires HasOrigin(jobs, raw, payload)
    ensures payload.RecordPayload?
  {
  }

  /** After the replay check no request turns into a replay or a conflict, and only answers write records. */
  lemma LaterStepsHaveOrigin(c: Config, j: Job, s: Shared, e: Env, jobs: seq<Job>)
    requires !j.phase.Arrived? && !j.phase.Done? && RecordsHaveOrigins(s.backend, jobs)
    ensures ReplyHasOrigin(Advance(c, j, s, e).job, jobs)
    ensures !j.phase.Answering? ==> RecordsHaveOrigins(Advance(c, j, s, e).shared.backend, jobs)
  {
    hide HasOrigin;
    hide BodyOf;
    hide Select;
    if !j.phase.Answering? {
      forall raw: string
        ensures SameRecord(s.backend, Advance(c, j, s, e).shared.backend, raw)
      {
        OthersAreUnaffected(c, j, s, e, raw);
      }
    }
  }

  lemma AnswerHasOrigin(c: Config, s: State, k: nat, e: Env)
    requires k < |s.jobs| && s.jobs[k].phase.Answering? && RecordsHaveOrigins(s.shared.backend, s.jobs)
    ensures var effect := Advance(c, s.jobs[k], s.shared, e);
            RecordsHaveOrigins(effect.shared.backend, s.jobs[k := effect.job])
  {
    hide BodyOf;
    var j := s.jobs[k];
    var effect := Advance(c, j, s.shared, e);
    var jobs' := s.jobs[k := effect.job];
    forall raw | IdempotencyKey(raw) in effect.shared.backend
      ensures HasOrigin(jobs', raw, effect.shared.backend[IdempotencyKey(raw)].value)
    {
      if Shares(j, raw) && !e.fate.Lost? {
        assert Recorded(jobs'[k], raw, effect.shared.backend[IdempotencyKey(raw)].value);
      } else {
        OriginStays(s.jobs, jobs', raw, s.shared.backend[IdempotencyKey(raw)].value);
      }
    }
  }

  lemma OriginsStay(b: Backend, jobs: seq<Job>, jobs': seq<Job>)
    requires RecordsHaveOrigins(b, jobs) && Grows(jobs, jobs')
    ensures RecordsHaveOrigins(b, jobs')
  {
    hide HasOrigin;
    forall raw | IdempotencyKey(raw) in b ensures HasOrigin(jobs', raw, b[IdempotencyKey(raw)].value) {
      OriginStays(jobs, jobs', raw, b[IdempotencyKey(raw)].value);
    }
  }

  lemma MoveKeepsOrigins(c: Config, s: State, k: nat, env: Env)
    requires Origins(s) && Enabled(s, Move(k, env))
    ensures Origins(Step(c, s, Move(k, env)))
  {
    hide Advance;
    hide Begin;
    hide RecordsHaveOrigins;
    hide ReplyHasOrigin;
    hide HasOrigin;
    var j := s.jobs[k];
    var effect := Advance(c, j, s.shared, env);
    var jobs' := s.jobs[k := effect.job];
    assert Grows(s.jobs, jobs');
    StepKeepsNew(c, s, Move(k, env));
    if j.phase.Arrived? {
      BeginHasOrigin(c, j, s.shared, env, s.jobs);
      ArrivedBegins(c, j, s.shared, env);
    } else {
      LaterStepsHaveOrigin(c, j, s.shared, env, s.jobs);
    }
    if j.phase.Answering? {
      AnswerHasOrigin(c, s, k, env);
    } else {
      OriginsStay(effect.shared.backend, s.jobs, jobs');
    }
    forall i | 0 <= i < |jobs'| ensures ReplyHasOrigin(jobs'[i], jobs') {
      ReplyOriginStays(if i == k then effect.job else s.jobs[i], s.jobs, jobs');
    }
  }

  lemma ArrivedBegins(c: Config, j: Job, s: Shared, e: Env)
    requires j.phase.Arrived?
    ensures Advance(c, j, s, e) == Begin(c, j, s, e)
  {
  }

  lemma ArriveKeepsOrigins(c: Config, s: State, v: Visit)
    requires Origins(s)
    ensures Origins(Step(c, s, Arrive(v)))
  {
    hide RecordsHaveOrigins;
    hide ReplyHasOrigin;
    var jobs' := s.jobs + [NewJob(v)];
    StepKeepsNew(c, s, Arrive(v));
    OriginsStay(s.shared.backend, s.jobs, jobs');
    NewHasNoReply(v, s.jobs);
    forall i | 0 <= i < |jobs'| ensures ReplyHasOrigin(jobs'[i], jobs') {
      ReplyOriginStays(if i == |s.jobs| then NewJob(v) else s.jobs[i], s.jobs, jobs');
    }
  }

  lemma NewHasNoReply(v: Visit, jobs: seq<Job>)
    ensures ReplyHasOrigin(NewJob(v), jobs)
  {
  }

  lemma {:induction false} LeadsKeepsOrigins(c: Config, before: State, events: seq<Action>, after: State)
    requires Origins(before) && Leads(c, before, events, after)
    ensures Origins(after)
    decreases |events|
  {
    hide Origins;
    hide Step;
    if events != [] {
      var last := events[|events| - 1];
      var s :| Leads(c, before, events[..|events| - 1], s) && Enabled(s, last) && after == Step(c, s, last);
      LeadsKeepsOrigins(c, before, events[..|events| - 1], s);
      match last
      case Arrive(v) => ArriveKeepsOrigins(c, s, v);
      case Move(k, env) => MoveKeepsOrigins(c, s, k, env);
    }
  }

  lemma ReachableHasOrigins(c: Config, start: real, s: State)
    requires Reachable(c, start, s)
    ensures Origins(s)
  {
    hide Leads;
    var events :| Leads(c, Initial(start), events, s);
    LeadsKeepsOrigins(c, Initial(start), events, s);
  }

  /** In every run, overlapping requests and failing backend included: a replayed body is the body of a request with
      the same content and the same record that was served afresh, and a conflict comes from one with other content. */
  lemma ReplayIsGenuine(c: Config, start: real, s: State, k: nat) returns (i: nat)
    requires Reachable(c, start, s) && k < |s.jobs| && s.jobs[k].phase.Done?
    requires s.jobs[k].phase.reply.ReplayedCompletion? || s.jobs[k].phase.reply.ConflictRejected?
    ensures i < |s.jobs| && Keyed(s.jobs[k].visit) && Shares(s.jobs[i], RawKeyOf(s.jobs[k].visit))
    ensures s.jobs[i].phase.Done? && s.jobs[i].phase.reply.Completed?
    ensures s.jobs[k].phase.reply.ReplayedCompletion? ==>
              s.jobs[i].visit.request == s.jobs[k].visit.request &&
              s.jobs[i].phase.reply.body == s.jobs[k].phase.reply.body
    ensures s.jobs[k].phase.reply.ConflictRejected? ==> s.jobs[i].visit.request != s.jobs[k].visit.request
  {
    hide Reachable;
    hide RecordsHaveOrigins;
    ReachableHasOrigins(c, start, s);
    var j := s.jobs[k];
    assert ReplyHasOrigin(j, s.jobs);
    var raw := RawKeyOf(j.visit);
    if j.phase.reply.ReplayedCompletion? {
      i :| 0 <= i < |s.jobs| && Recorded(s.jobs[i], raw, RecordPayload(j.visit.request, j.phase.reply.body));
    } else {
      var owner, body :| owner != j.visit.request && HasOrigin(s.jobs, raw, RecordPayload(owner, body));
      i :| 0 <= i < |s.jobs| && Recorded(s.jobs[i], raw, RecordPayload(owner, body));
    }
  }

  lemma RecordHasOwner(b: Backend, jobs: seq<Job>, raw: string)
    requires RecordsHaveOrigins(b, jobs)
    ensures IdempotencyKey(raw) in b ==>
              exists i :: 0 <= i < |jobs| && Shares(jobs[i], raw) &&
                          jobs[i].phase.Done? && jobs[i].phase.reply.Completed?
  {
    if IdempotencyKey(raw) in b {
      var payload := b[IdempotencyKey(raw)].value;
      assert HasOrigin(jobs, raw, payload);
      var i :| 0 <= i < |jobs| && Recorded(jobs[i], raw, payload);
    }
  }

  /** So a request whose record no request served afresh shares goes on to be served, whatever the backend does. */
  lemma UnknownKeyIsServed(c: Config, start: real, s: State, k: nat, env: Env)
    requires Reachable(c, start, s) && Enabled(s, Move(k, env)) && s.jobs[k].phase.Arrived?
    requires Admissible(c.registry, s.jobs[k].visit)
    requires Keyed(s.jobs[k].visit) ==>
               forall i :: 0 <= i < |s.jobs| && Shares(s.jobs[i], RawKeyOf(s.jobs[k].visit)) ==>
                             !(s.jobs[i].phase.Done? && s.jobs[i].phase.reply.Completed?)
    ensures Step(c, s, Move(k, env)).jobs[k].phase.Choosing?
  {
    hide Reachable;
    ReachableHasOrigins(c, start, s);
    var j := s.jobs[k];
    assert Rejection(c.registry, j.visit).None?;
    if Keyed(j.visit) {
      RecordHasOwner(s.shared.backend, s.jobs, RawKeyOf(j.visit));
    }
  }
}
