/** The Bedrock session budget (control_plane/providers/bedrock.py): every call reserves the most it can cost before
    it is made, and settles for what it did cost, or releases the reservation, afterwards.

    A call that the runtime's deadline cuts off after reserving does neither: cancellation is not an `Exception`, so
    its reservation stays (bedrock.py:118, reliability.py:162). */
module Budget {
  import opened Contracts

  datatype State = State(limit: real, spent: real, reserved: real)

  function Reserve(b: State, amount: real): (State, bool) {
    if b.spent + b.reserved + amount > b.limit then (b, false) else (b.(reserved := b.reserved + amount), true)
  }

  function Settle(b: State, reserved: real, actual: real): State {
    b.(reserved := b.reserved - reserved, spent := b.spent + actual)
  }

  function Release(b: State, reserved: real): State {
    b.(reserved := b.reserved - reserved)
  }

  class SessionBudget {
    const limit: real
    var spent: real
    var reserved: real

    constructor (limit: real)
      ensures Value() == State(limit, 0.0, 0.0)
    {
      this.limit := limit;
      spent, reserved := 0.0, 0.0;
    }

    ghost function Value(): State
      reads this
    {
      State(limit, spent, reserved)
    }

    method TryReserve(amount: real) returns (ok: bool)
      modifies this
      ensures (Value(), ok) == Reserve(old(Value()), amount)
    {
      if spent + reserved + amount > limit {
        return false;
      }
      reserved := reserved + amount;
      return true;
    }

    method SettleCall(held: real, actual: real)
      modifies this
      ensures Value() == Settle(old(Value()), held, actual)
    {
      reserved := reserved - held;
      spent := spent + actual;
    }

    method ReleaseCall(held: real)
      modifies this
      ensures Value() == Release(old(Value()), held)
    {
      reserved := reserved - held;
    }
  }

  // ---------------------------------------------------------------------------------------------
  // One call
  // ---------------------------------------------------------------------------------------------

  datatype Prices = Prices(input: real, output: real)

  /** The settings reject negative prices. */
  predicate ValidPrices(p: Prices) {
    p.input >= 0.0 && p.output >= 0.0
  }

  /** Token counts come from the response and may be any integers. */
  function Cost(p: Prices, inputTokens: int, outputTokens: int): real {
    (inputTokens as real * p.input + outputTokens as real * p.output) / 1000000.0
  }

  /** No tokens cost nothing; one input token more costs the input price, and one output token more the output price,
      by the million. */
  lemma CostMeans(p: Prices, inputTokens: int, outputTokens: int)
    ensures Cost(p, 0, 0) == 0.0
    ensures Cost(p, inputTokens + 1, outputTokens) == Cost(p, inputTokens, outputTokens) + p.input / 1000000.0
    ensures Cost(p, inputTokens, outputTokens + 1) == Cost(p, inputTokens, outputTokens) + p.output / 1000000.0
  {
    var x, y := inputTokens as real, outputTokens as real;
    assert (x + 1.0) * p.input == x * p.input + p.input;
    assert (y + 1.0) * p.output == y * p.output + p.output;
  }

  /** A Converse response: what is present in it, and of the right type.  A block is its text, if it has one. */
  datatype Body = Body(content: Option<seq<Option<string>>>)

  datatype Output = Output(message: Option<Body>)

  datatype Usage = Usage(inputTokens: Option<int>, outputTokens: Option<int>)

  datatype Reply =
    | Raised
    | Response(usage: Option<Usage>, output: Option<Output>, stoppedAtMaxTokens: bool)

  /** The text of the blocks that have one. */
  function TextOf(blocks: seq<Option<string>>): string {
    if blocks == [] then ""
    else (match blocks[0] case Some(text) => text case None => "") + TextOf(blocks[1..])
  }

  datatype Reading = Unusable | Usable(text: string, inputTokens: int, outputTokens: int, finish: FinishReason)

  /** Lines 122-148: output is a dict holding a message holding a content list whose text is not empty. */
  function Read(reply: Reply): Reading {
    if reply.Raised? || reply.usage.None? || reply.output.None? then Unusable
    else
      var usage, message := reply.usage.value, reply.output.value.message;
      if usage.inputTokens.None? || usage.outputTokens.None? || message.None? then Unusable
      else if message.value.content.None? then Unusable
      else
        var text := TextOf(message.value.content.value);
        if text == "" then Unusable
        else
          Usable(text, usage.inputTokens.value, usage.outputTokens.value,
                 if reply.stoppedAtMaxTokens then Length else Stop)
  }

  /** All the text of the blocks, in order: it starts with the first one's, and there is none exactly if no block has
      some. */
  lemma {:induction false} TextMeans(blocks: seq<Option<string>>)
    ensures TextOf(blocks) == "" <==> forall i :: 0 <= i < |blocks| ==> blocks[i] == None || blocks[i] == Some("")
    ensures forall text :: TextOf([Some(text)] + blocks) == text + TextOf(blocks)
    ensures TextOf([None] + blocks) == TextOf(blocks)
  {
    forall text: string ensures TextOf([Some(text)] + blocks) == text + TextOf(blocks) {
      assert ([Some(text)] + blocks)[1..] == blocks;
    }
    assert ([None] + blocks)[1..] == blocks;
    if blocks != [] {
      TextMeans(blocks[1..]);
      assert forall i :: 0 <= i < |blocks[1..]| ==> blocks[1..][i] == blocks[i + 1];
    }
  }

  /** A response is used exactly if both token counts and a text that is not empty can be read from it; these are then
      what it reports, and its finish reason is that of the stop at max_tokens. */
  lemma ReadMeans(reply: Reply, text: string, inputTokens: int, outputTokens: int, finish: FinishReason)
    ensures Read(reply) == Usable(text, inputTokens, outputTokens, finish) <==>
              && reply.Response?
              && reply.usage == Some(Usage(Some(inputTokens), Some(outputTokens)))
              && reply.output.Some? && reply.output.value.message.Some?
              && reply.output.value.message.value.content.Some?
              && text == TextOf(reply.output.value.message.value.content.value) && text != ""
              && (finish == Length <==> reply.stoppedAtMaxTokens) && (finish == Stop <==> !reply.stoppedAtMaxTokens)
  {
  }

  function ResultOf(p: Prices, u: Reading): ProviderResult
    requires u.Usable?
  {
    ProviderResult(u.text, u.inputTokens, u.outputTokens, u.finish, Cost(p, u.inputTokens, u.outputTokens))
  }

  datatype CallError = InvalidCount | BudgetExceeded | ConverseFailed

  /** `complete`, not cut off and with no other call in between: it leaves no reservation behind, and spends what
      the response reports if and only if it succeeds, at the prices of input and output. */
  method Complete(budget: SessionBudget, p: Prices, maxTokens: nat, counted: Option<int>, reply: Reply)
    returns (result: Result<ProviderResult, CallError>)
    modifies budget
    ensures budget.reserved == old(budget.reserved)
    ensures budget.spent == old(budget.spent) + if result.Ok? then result.value.estimatedCost else 0.0
    ensures result == Err(InvalidCount) <==> counted.None? || counted.value < 0
    ensures result == Err(BudgetExceeded) <==>
              counted.Some? && counted.value >= 0 &&
              old(budget.spent) + old(budget.reserved)
              + (counted.value as real * p.input + maxTokens as real * p.output) / 1000000.0 > budget.limit
    ensures result.Ok? ==> Read(reply).Usable? && result.value == ResultOf(p, Read(reply))
    ensures result.Ok? ==>
              result.value.estimatedCost * 1000000.0
              == result.value.promptTokens as real * p.input + result.value.completionTokens as real * p.output
    ensures result == Err(ConverseFailed) ==> Read(reply).Unusable?
  {
    if counted.None? || counted.value < 0 {
      return Err(InvalidCount);
    }
    var held := Cost(p, counted.value, maxTokens);
    var ok := budget.TryReserve(held);
    if !ok {
      return Err(BudgetExceeded);
    }
    var reading := Read(reply);
    match reading {
      case Unusable =>
        budget.ReleaseCall(held);
        return Err(ConverseFailed);
      case Usable(text, inputTokens, outputTokens, finish) =>
        var actual := Cost(p, inputTokens, outputTokens);
        budget.SettleCall(held, actual);
        return Ok(ProviderResult(text, inputTokens, outputTokens, finish, actual));
    }
  }

  // ---------------------------------------------------------------------------------------------
  // Interleaved calls
  // ---------------------------------------------------------------------------------------------

  /** A call after its attempt to reserve.  `Conversing` calls are the ones whose request is on its way. */
  datatype Call =
    | Conversing(counted: nat, maxTokens: nat)
    | CutOff(counted: nat, maxTokens: nat)
    | Over

  /** Calls are numbered by position.  `overage` adds up what settled calls cost beyond their reservation. */
  datatype Machine = Machine(budget: State, calls: seq<Call>, overage: real)

  datatype Event =
    | Begin(counted: nat, maxTokens: nat)
    | End(call: nat, reply: Reply)
    | Deadline(call: nat)

  function Held(p: Prices, c: Call): real {
    if c.Over? then 0.0 else Cost(p, c.counted, c.maxTokens)
  }

  function TotalHeld(p: Prices, cs: seq<Call>): real {
    if cs == [] then 0.0 else TotalHeld(p, cs[..|cs| - 1]) + Held(p, cs[|cs| - 1])
  }

  function Excess(actual: real, held: real): (r: real)
    ensures r >= 0.0 && actual <= held + r
    ensures actual <= held ==> r == 0.0
  {
    if actual > held then actual - held else 0.0
  }

  function Start(limit: real): Machine {
    Machine(State(limit, 0.0, 0.0), [], 0.0)
  }

  /** Each of the lock-protected pieces of `complete` is one step; events that do not apply do nothing. */
  function Step(p: Prices, m: Machine, e: Event): Machine {
    match e
    case Begin(counted, maxTokens) =>
      var (b, ok) := Reserve(m.budget, Cost(p, counted, maxTokens));
      m.(budget := b, calls := m.calls + [if ok then Conversing(counted, maxTokens) else Over])
    case End(i, reply) =>
      if i >= |m.calls| || !m.calls[i].Conversing? then m
      else
        var held := Held(p, m.calls[i]);
        (match Read(reply)
         case Unusable => m.(budget := Release(m.budget, held), calls := m.calls[i := Over])
         case Usable(_, inputTokens, outputTokens, _) =>
           var actual := Cost(p, inputTokens, outputTokens);
           Machine(Settle(m.budget, held, actual), m.calls[i := Over], m.overage + Excess(actual, held)))
    case Deadline(i) =>
      if i >= |m.calls| || !m.calls[i].Conversing? then m
      else m.(calls := m.calls[i := CutOff(m.calls[i].counted, m.calls[i].maxTokens)])
  }

  function Run(p: Prices, m: Machine, events: seq<Event>): Machine {
    if events == [] then m else Step(p, Run(p, m, events[..|events| - 1]), events[|events| - 1])
  }

  ghost predicate Invariant(p: Prices, m: Machine) {
    && m.budget.reserved == TotalHeld(p, m.calls)
    && m.budget.spent + m.budget.reserved <= m.budget.limit + m.overage
    && m.overage >= 0.0
  }

  lemma {:induction false} HeldAfterUpdate(p: Prices, cs: seq<Call>, i: nat, c: Call)
    requires i < |cs|
    ensures TotalHeld(p, cs[i := c]) == TotalHeld(p, cs) - Held(p, cs[i]) + Held(p, c)
  {
    var last := |cs| - 1;
    if i == last {
      assert cs[i := c][..last] == cs[..last];
    } else {
      HeldAfterUpdate(p, cs[..last], i, c);
      assert cs[i := c][..last] == cs[..last][i := c];
    }
  }

  lemma CostMonotone(p: Prices, a: int, b: int, c: int, d: int)
    requires ValidPrices(p) && a <= c && b <= d
    ensures Cost(p, a, b) <= Cost(p, c, d)
  {
    TokensMonotone(p.input, a, c);
    TokensMonotone(p.output, b, d);
  }

  lemma TokensMonotone(price: real, a: int, b: int)
    requires price >= 0.0 && a <= b
    ensures a as real * price <= b as real * price
  {
    var x, y := a as real, b as real;
    assert (y - x) * price >= 0.0;
    assert (y - x) * price == y * price - x * price;
  }

  lemma HeldIsNonNegative(p: Prices, c: Call)
    requires ValidPrices(p)
    ensures Held(p, c) >= 0.0
  {
    if !c.Over? {
      CostMonotone(p, 0, 0, c.counted, c.maxTokens);
    }
  }

  lemma BeginKeepsInvariant(p: Prices, m: Machine, counted: nat, maxTokens: nat)
    requires Invariant(p, m)
    ensures Invariant(p, Step(p, m, Begin(counted, maxTokens)))
  {
    hide Cost;
    var m' := Step(p, m, Begin(counted, maxTokens));
    assert m'.calls[..|m.calls|] == m.calls;
  }

  lemma EndKeepsInvariant(p: Prices, m: Machine, i: nat, reply: Reply)
    requires ValidPrices(p) && Invariant(p, m)
    ensures Invariant(p, Step(p, m, End(i, reply)))
  {
    hide Cost;
    hide Read;
    hide TotalHeld;
    if i < |m.calls| {
      HeldAfterUpdate(p, m.calls, i, Over);
      HeldIsNonNegative(p, m.calls[i]);
    }
  }

  lemma DeadlineKeepsInvariant(p: Prices, m: Machine, i: nat)
    requires Invariant(p, m)
    ensures Invariant(p, Step(p, m, Deadline(i)))
  {
    hide Cost;
    hide TotalHeld;
    if i < |m.calls| && m.calls[i].Conversing? {
      HeldAfterUpdate(p, m.calls, i, CutOff(m.calls[i].counted, m.calls[i].maxTokens));
    }
  }

  lemma LimitStays(p: Prices, m: Machine, e: Event)
    ensures Step(p, m, e).budget.limit == m.budget.limit
  {
    hide Cost;
    hide Read;
  }

  lemma StepKeepsInvariant(p: Prices, m: Machine, e: Event)
    requires ValidPrices(p) && Invariant(p, m)
    ensures Invariant(p, Step(p, m, e)) && Step(p, m, e).budget.limit == m.budget.limit
  {
    hide Step;
    hide Invariant;
    LimitStays(p, m, e);
    match e
    case Begin(counted, maxTokens) => BeginKeepsInvariant(p, m, counted, maxTokens);
    case End(i, reply) => EndKeepsInvariant(p, m, i, reply);
    case Deadline(i) => DeadlineKeepsInvariant(p, m, i);
  }

  lemma {:induction false} RunKeepsInvariant(p: Prices, m: Machine, events: seq<Event>)
    requires ValidPrices(p) && Invariant(p, m)
    ensures Invariant(p, Run(p, m, events)) && Run(p, m, events).budget.limit == m.budget.limit
  {
    if events != [] {
      RunKeepsInvariant(p, m, events[..|events| - 1]);
      StepKeepsInvariant(p, Run(p, m, events[..|events| - 1]), events[|events| - 1]);
    }
  }

  /** Under every interleaving what is reserved is exactly what the calls on their way and the calls cut off by the
      deadline hold, and spent plus reserved never exceeds the limit by more than settled calls exceeded their
      reservations. */
  lemma BudgetIsAccounted(p: Prices, limit: real, events: seq<Event>)
    requires limit >= 0.0 && ValidPrices(p)
    ensures var m := Run(p, Start(limit), events);
            && m.budget.reserved == TotalHeld(p, m.calls)
            && m.budget.spent + m.budget.reserved <= limit + m.overage
  {
    RunKeepsInvariant(p, Start(limit), events);
  }

  /** What an event charges: a call on its way that gets a usable response, what that reports. */
  function Charge(p: Prices, m: Machine, e: Event): real {
    if e.End? && e.call < |m.calls| && m.calls[e.call].Conversing? && Read(e.reply).Usable?
    then Cost(p, Read(e.reply).inputTokens, Read(e.reply).outputTokens)
    else 0.0
  }

  function TotalCharged(p: Prices, m: Machine, events: seq<Event>): real {
    if events == [] then 0.0
    else
      var front, last := events[..|events| - 1], events[|events| - 1];
      TotalCharged(p, m, front) + Charge(p, Run(p, m, front), last)
  }

  /** What is spent is what the settled responses report, no more and no less, and a call that has ended, been refused
      or been cut off is charged no more. */
  lemma {:induction false} SpentIsCharged(p: Prices, m: Machine, events: seq<Event>)
    ensures Run(p, m, events).budget.spent == m.budget.spent + TotalCharged(p, m, events)
  {
    hide Cost;
    hide Read;
    if events != [] {
      SpentIsCharged(p, m, events[..|events| - 1]);
    }
  }

  // ---------------------------------------------------------------------------------------------
  // When the limit holds
  // ---------------------------------------------------------------------------------------------

  ghost predicate WithinLimit(b: State) {
    b.spent + b.reserved <= b.limit
  }

  /** What a settling call costs beyond its reservation still fits under the limit. */
  ghost predicate OverageFits(p: Prices, m: Machine, e: Event) {
    e.End? && e.call < |m.calls| && m.calls[e.call].Conversing? && Read(e.reply).Usable? ==>
      Cost(p, Read(e.reply).inputTokens, Read(e.reply).outputTokens) - Held(p, m.calls[e.call])
        <= m.budget.limit - m.budget.spent - m.budget.reserved
  }

  lemma StepWithinLimit(p: Prices, m: Machine, e: Event)
    requires ValidPrices(p) && WithinLimit(m.budget)
    ensures WithinLimit(Step(p, m, e).budget) <==> OverageFits(p, m, e)
  {
    hide Cost;
    hide Read;
    if e.End? && e.call < |m.calls| {
      HeldIsNonNegative(p, m.calls[e.call]);
    }
  }

  /** The budget after the first k events. */
  function BudgetAt(p: Prices, limit: real, events: seq<Event>, k: nat): State
    requires k <= |events|
  {
    Run(p, Start(limit), events[..k]).budget
  }

  lemma RunPrefix(p: Prices, m: Machine, events: seq<Event>, k: nat)
    requires k < |events|
    ensures Run(p, m, events[..k + 1]) == Step(p, Run(p, m, events[..k]), events[k])
  {
    assert events[..k + 1][..k] == events[..k];
  }

  /** Spent plus reserved stays within the limit throughout a run exactly when every response that is settled costs
      no more beyond its reservation than is left under the limit at that moment. */
  lemma LimitHoldsExactlyWhen(p: Prices, limit: real, events: seq<Event>)
    requires limit >= 0.0 && ValidPrices(p)
    ensures (forall k :: 0 <= k <= |events| ==> WithinLimit(BudgetAt(p, limit, events, k))) <==>
            (forall k :: 0 <= k < |events| ==> OverageFits(p, Run(p, Start(limit), events[..k]), events[k]))
  {
    hide OverageFits;
    hide WithinLimit;
    if forall k :: 0 <= k <= |events| ==> WithinLimit(BudgetAt(p, limit, events, k)) {
      forall k | 0 <= k < |events|
        ensures OverageFits(p, Run(p, Start(limit), events[..k]), events[k])
      {
        assert WithinLimit(BudgetAt(p, limit, events, k)) && WithinLimit(BudgetAt(p, limit, events, k + 1));
        RunPrefix(p, Start(limit), events, k);
        StepWithinLimit(p, Run(p, Start(limit), events[..k]), events[k]);
      }
    }
    if forall k :: 0 <= k < |events| ==> OverageFits(p, Run(p, Start(limit), events[..k]), events[k]) {
      forall k | 0 <= k <= |events| ensures WithinLimit(BudgetAt(p, limit, events, k)) {
        LimitHoldsUpTo(p, limit, events, k);
      }
    }
  }

  lemma {:induction false} LimitHoldsUpTo(p: Prices, limit: real, events: seq<Event>, k: nat)
    requires limit >= 0.0 && ValidPrices(p) && k <= |events|
    requires forall i :: 0 <= i < k ==> OverageFits(p, Run(p, Start(limit), events[..i]), events[i])
    ensures WithinLimit(BudgetAt(p, limit, events, k))
  {
    hide OverageFits;
    if k > 0 {
      LimitHoldsUpTo(p, limit, events, k - 1);
      RunPrefix(p, Start(limit), events, k - 1);
      StepWithinLimit(p, Run(p, Start(limit), events[..k - 1]), events[k - 1]);
    }
  }

  /** The usage that a response reports is within the counted input and `max_tokens` of its call. */
  ghost predicate WithinRequest(m: Machine, e: Event) {
    e.End? && e.call < |m.calls| && m.calls[e.call].Conversing? && Read(e.reply).Usable? ==>
      Read(e.reply).inputTokens <= m.calls[e.call].counted && Read(e.reply).outputTokens <= m.calls[e.call].maxTokens
  }

  ghost predicate AllWithinRequest(p: Prices, m: Machine, events: seq<Event>) {
    forall i :: 0 <= i < |events| ==> WithinRequest(Run(p, m, events[..i]), events[i])
  }

  lemma WithinRequestFits(p: Prices, m: Machine, e: Event)
    requires ValidPrices(p) && WithinLimit(m.budget) && WithinRequest(m, e)
    ensures OverageFits(p, m, e)
  {
    hide Read;
    if e.End? && e.call < |m.calls| && m.calls[e.call].Conversing? && Read(e.reply).Usable? {
      var c := m.calls[e.call];
      CostMonotone(p, Read(e.reply).inputTokens, Read(e.reply).outputTokens, c.counted, c.maxTokens);
    }
  }

  /** In particular it stays within the limit if every response keeps to what was asked. */
  lemma {:induction false} BudgetIsSafe(p: Prices, limit: real, events: seq<Event>)
    requires limit >= 0.0 && ValidPrices(p)
    requires AllWithinRequest(p, Start(limit), events)
    ensures forall k :: 0 <= k <= |events| ==> WithinLimit(BudgetAt(p, limit, events, k))
  {
    hide WithinRequest;
    hide OverageFits;
    hide WithinLimit;
    forall k | 0 <= k <= |events| ensures WithinLimit(BudgetAt(p, limit, events, k)) {
      SafeUpTo(p, limit, events, k);
    }
  }

  lemma {:induction false} SafeUpTo(p: Prices, limit: real, events: seq<Event>, k: nat)
    requires limit >= 0.0 && ValidPrices(p) && k <= |events|
    requires AllWithinRequest(p, Start(limit), events)
    ensures WithinLimit(BudgetAt(p, limit, events, k))
  {
    hide WithinRequest;
    hide OverageFits;
    if k > 0 {
      SafeUpTo(p, limit, events, k - 1);
      RunPrefix(p, Start(limit), events, k - 1);
      WithinRequestFits(p, Run(p, Start(limit), events[..k - 1]), events[k - 1]);
      StepWithinLimit(p, Run(p, Start(limit), events[..k - 1]), events[k - 1]);
    }
  }

  function ReplyReporting(inputTokens: int, outputTokens: int): Reply {
    Response(Some(Usage(Some(inputTokens), Some(outputTokens))), Some(Output(Some(Body(Some([Some("x")]))))), false)
  }

  lemma ReadReporting(inputTokens: int, outputTokens: int)
    ensures Read(ReplyReporting(inputTokens, outputTokens)) == Usable("x", inputTokens, outputTokens, Stop)
  {
    assert [Some("x")][1..] == [];
  }

  lemma RunTwo(p: Prices, m: Machine, one: Event, two: Event)
    ensures Run(p, m, [one, two]) == Step(p, Step(p, m, one), two)
  {
    hide Step;
    assert [one, two][..1] == [one] && [one][..0] == [];
    assert Run(p, m, [one]) == Step(p, m, one);
  }

  /** A first call that is answered. */
  lemma BeginEnd(p: Prices, limit: real, counted: nat, maxTokens: nat, inputTokens: int, outputTokens: int)
    requires Cost(p, counted, maxTokens) <= limit
    ensures var events := [Begin(counted, maxTokens), End(0, ReplyReporting(inputTokens, outputTokens))];
            Run(p, Start(limit), events).budget == State(limit, Cost(p, inputTokens, outputTokens), 0.0)
  {
    hide Cost;
    hide Run;
    hide Read;
    RunTwo(p, Start(limit), Begin(counted, maxTokens), End(0, ReplyReporting(inputTokens, outputTokens)));
    ReadReporting(inputTokens, outputTokens);
  }

  /** A first call that is cut off. */
  lemma BeginDeadline(p: Prices, limit: real, counted: nat, maxTokens: nat)
    requires Cost(p, counted, maxTokens) <= limit
    ensures var m := Run(p, Start(limit), [Begin(counted, maxTokens), Deadline(0)]);
            && m.budget == State(limit, 0.0, Cost(p, counted, maxTokens))
            && m.calls == [CutOff(counted, maxTokens)]
  {
    hide Cost;
    hide Run;
    RunTwo(p, Start(limit), Begin(counted, maxTokens), Deadline(0));
  }

  /** A request that takes the whole budget, and a response that reports twice its `max_tokens`. */
  lemma ReceivableCosts()
    ensures Cost(Prices(1.0, 1.0), 10, 4096) == 0.004106 && Cost(Prices(1.0, 1.0), 10, 8192) == 0.008202
  {
  }

  /** The condition can fail: a response that reports twice the `max_tokens` of its request. */
  lemma LimitCanBeOverrun()
    ensures var events := [Begin(10, 4096), End(0, ReplyReporting(10, 8192))];
            Run(Prices(1.0, 1.0), Start(0.004106), events).budget == State(0.004106, 0.008202, 0.0)
  {
    hide *;
    ReceivableCosts();
    BeginEnd(Prices(1.0, 1.0), 0.004106, 10, 4096, 10, 8192);
  }

  /** Usages for the calls whose request may still be running, within what they asked for. Calls that the deadline
      cut off are among them: their thread goes on. */
  ghost predicate UsageWithin(cs: seq<Call>, usages: seq<(int, int)>) {
    && |usages| == |cs|
    && forall i :: 0 <= i < |cs| && !cs[i].Over? ==> usages[i].0 <= cs[i].counted && usages[i].1 <= cs[i].maxTokens
  }

  function CostOfRunning(p: Prices, cs: seq<Call>, usages: seq<(int, int)>): real
    requires |usages| == |cs|
  {
    if cs == [] then 0.0
    else
      var last := |cs| - 1;
      CostOfRunning(p, cs[..last], usages[..last])
      + if cs[last].Over? then 0.0 else Cost(p, usages[last].0, usages[last].1)
  }

  lemma {:induction false} RunningIsHeld(p: Prices, cs: seq<Call>, usages: seq<(int, int)>)
    requires ValidPrices(p) && UsageWithin(cs, usages)
    ensures CostOfRunning(p, cs, usages) <= TotalHeld(p, cs)
  {
    hide Cost;
    if cs != [] {
      var last := |cs| - 1;
      RunningIsHeld(p, cs[..last], usages[..last]);
      if !cs[last].Over? {
        CostMonotone(p, usages[last].0, usages[last].1, cs[last].counted, cs[last].maxTokens);
      }
    }
  }

  /** No request is on its way without a reservation of its own: whatever all the calls still running, cut-off ones
      included, cost together within what they asked for is part of the reserved amount. */
  lemma ConverseIsCovered(p: Prices, limit: real, events: seq<Event>, usages: seq<(int, int)>)
    requires limit >= 0.0 && ValidPrices(p)
    requires UsageWithin(Run(p, Start(limit), events).calls, usages)
    ensures var m := Run(p, Start(limit), events); CostOfRunning(p, m.calls, usages) <= m.budget.reserved
  {
    BudgetIsAccounted(p, limit, events);
    RunningIsHeld(p, Run(p, Start(limit), events).calls, usages);
  }

  // ---------------------------------------------------------------------------------------------
  // Calls cut off by the deadline
  // ---------------------------------------------------------------------------------------------

  /** What calls cut off by the deadline hold. */
  function Leaked(p: Prices, cs: seq<Call>): real {
    if cs == [] then 0.0
    else Leaked(p, cs[..|cs| - 1]) + if cs[|cs| - 1].CutOff? then Held(p, cs[|cs| - 1]) else 0.0
  }

  lemma {:induction false} LeakedIsHeld(p: Prices, cs: seq<Call>)
    requires ValidPrices(p)
    ensures Leaked(p, cs) <= TotalHeld(p, cs)
  {
    if cs != [] {
      var last := |cs| - 1;
      LeakedIsHeld(p, cs[..last]);
      HeldIsNonNegative(p, cs[last]);
    }
  }

  lemma {:induction false} LeakedAfterUpdate(p: Prices, cs: seq<Call>, i: nat, c: Call)
    requires i < |cs| && cs[i].Conversing?
    ensures Leaked(p, cs[i := c]) == Leaked(p, cs) + if c.CutOff? then Held(p, c) else 0.0
  {
    var last := |cs| - 1;
    if i == last {
      assert cs[i := c][..last] == cs[..last];
    } else {
      LeakedAfterUpdate(p, cs[..last], i, c);
      assert cs[i := c][..last] == cs[..last][i := c];
    }
  }

  lemma {:induction false} LeakNeverShrinks(p: Prices, m: Machine, events: seq<Event>)
    requires ValidPrices(p)
    ensures Leaked(p, Run(p, m, events).calls) >= Leaked(p, m.calls)
  {
    if events != [] {
      var before, e := Run(p, m, events[..|events| - 1]), events[|events| - 1];
      LeakNeverShrinks(p, m, events[..|events| - 1]);
      match e
      case Begin(counted, maxTokens) =>
        assert Step(p, before, e).calls[..|before.calls|] == before.calls;
      case End(i, reply) =>
        if i < |before.calls| && before.calls[i].Conversing? {
          LeakedAfterUpdate(p, before.calls, i, Over);
        }
      case Deadline(i) =>
        if i < |before.calls| && before.calls[i].Conversing? {
          var c := before.calls[i];
          LeakedAfterUpdate(p, before.calls, i, CutOff(c.counted, c.maxTokens));
          HeldIsNonNegative(p, c);
        }
    }
  }

  /** A reservation that the deadline cut off is never given back: from any point on, in every continuation, at
      least what was cut off so far stays reserved. */
  lemma CutOffReservationsStay(p: Prices, limit: real, events: seq<Event>, more: seq<Event>)
    requires limit >= 0.0 && ValidPrices(p)
    ensures var m := Run(p, Start(limit), events);
            Run(p, m, more).budget.reserved >= Leaked(p, m.calls)
  {
    var m := Run(p, Start(limit), events);
    RunKeepsInvariant(p, Start(limit), events);
    RunKeepsInvariant(p, m, more);
    LeakNeverShrinks(p, m, more);
    LeakedIsHeld(p, Run(p, m, more).calls);
  }

  ghost predicate NoneConversing(cs: seq<Call>) {
    forall i :: 0 <= i < |cs| ==> !cs[i].Conversing?
  }

  /** A call that the deadline cut off and that held something. */
  ghost predicate LeaksSomething(p: Prices, cs: seq<Call>) {
    exists i :: 0 <= i < |cs| && cs[i].CutOff? && Held(p, cs[i]) > 0.0
  }

  lemma {:induction false} LeakedIsAllHeld(p: Prices, cs: seq<Call>)
    requires NoneConversing(cs)
    ensures TotalHeld(p, cs) == Leaked(p, cs)
  {
    hide Cost;
    if cs != [] {
      LeakedIsAllHeld(p, cs[..|cs| - 1]);
    }
  }

  lemma {:induction false} LeakedIsPositiveExactlyWhen(p: Prices, cs: seq<Call>)
    requires ValidPrices(p)
    ensures Leaked(p, cs) >= 0.0
    ensures Leaked(p, cs) > 0.0 <==> LeaksSomething(p, cs)
  {
    hide Held;
    if cs != [] {
      var last := |cs| - 1;
      LeakedIsPositiveExactlyWhen(p, cs[..last]);
      HeldIsNonNegative(p, cs[last]);
      if LeaksSomething(p, cs[..last]) {
        var i :| 0 <= i < last && cs[..last][i].CutOff? && Held(p, cs[..last][i]) > 0.0;
        assert cs[i].CutOff? && Held(p, cs[i]) > 0.0;
      }
      if LeaksSomething(p, cs) && !(cs[last].CutOff? && Held(p, cs[last]) > 0.0) {
        var i :| 0 <= i < |cs| && cs[i].CutOff? && Held(p, cs[i]) > 0.0;
        assert cs[..last][i].CutOff? && Held(p, cs[..last][i]) > 0.0;
      }
    }
  }

  /** Once no call is on its way, exactly what the cut-off calls held is still reserved; so the reservations have all
      come back exactly when no call that held something was cut off. */
  lemma ReservationsComeBackExactlyWhen(p: Prices, limit: real, events: seq<Event>)
    requires limit >= 0.0 && ValidPrices(p)
    requires NoneConversing(Run(p, Start(limit), events).calls)
    ensures var m := Run(p, Start(limit), events);
            && m.budget.reserved == Leaked(p, m.calls)
            && (m.budget.reserved == 0.0 <==> !LeaksSomething(p, m.calls))
  {
    hide LeaksSomething;
    var m := Run(p, Start(limit), events);
    BudgetIsAccounted(p, limit, events);
    LeakedIsAllHeld(p, m.calls);
    LeakedIsPositiveExactlyWhen(p, m.calls);
  }

  /** One request of ordinary size whose call is cut off. */
  lemma ReservationCanLeak()
    ensures var m := Run(Prices(1.0, 1.0), Start(0.004106), [Begin(10, 4096), Deadline(0)]);
            && m.budget == State(0.004106, 0.0, 0.004106)
            && NoneConversing(m.calls) && LeaksSomething(Prices(1.0, 1.0), m.calls)
            && Leaked(Prices(1.0, 1.0), m.calls) == 0.004106
  {
    hide Run;
    hide Cost;
    var p, events := Prices(1.0, 1.0), [Begin(10, 4096), Deadline(0)];
    ReceivableCosts();
    BeginDeadline(p, 0.004106, 10, 4096);
    assert Run(p, Start(0.004106), events).calls[0] == CutOff(10, 4096);
    ReservationsComeBackExactlyWhen(p, 0.004106, events);
  }

  // ---------------------------------------------------------------------------------------------
  // A budget that cut-off calls have used up
  // ---------------------------------------------------------------------------------------------

  /** No response takes something back. */
  ghost predicate UsageNotNegative(e: Event) {
    e.End? && Read(e.reply).Usable? ==> Read(e.reply).inputTokens >= 0 && Read(e.reply).outputTokens >= 0
  }

  lemma SpendingGrows(p: Prices, m: Machine, e: Event)
    requires ValidPrices(p) && UsageNotNegative(e)
    ensures Step(p, m, e).budget.spent >= m.budget.spent
  {
    hide Read;
    if e.End? && Read(e.reply).Usable? {
      CostMonotone(p, 0, 0, Read(e.reply).inputTokens, Read(e.reply).outputTokens);
    }
  }

  lemma {:induction false} SpendingNeverShrinks(p: Prices, m: Machine, events: seq<Event>)
    requires ValidPrices(p) && forall i :: 0 <= i < |events| ==> UsageNotNegative(events[i])
    ensures Run(p, m, events).budget.spent >= m.budget.spent
  {
    hide UsageNotNegative;
    if events != [] {
      var last := |events| - 1;
      SpendingNeverShrinks(p, m, events[..last]);
      SpendingGrows(p, Run(p, m, events[..last]), events[last]);
    }
  }

  /** Once what is spent and what cut-off calls hold leave no room for a cost, every later call that may cost as much
      is refused, in every continuation: the session is over for it although the limit was never reached. */
  lemma RefusedForEver(p: Prices, limit: real, events: seq<Event>, more: seq<Event>, counted: nat, maxTokens: nat)
    requires limit >= 0.0 && ValidPrices(p) && forall i :: 0 <= i < |more| ==> UsageNotNegative(more[i])
    requires var m := Run(p, Start(limit), events);
             m.budget.spent + Leaked(p, m.calls) + Cost(p, counted, maxTokens) > limit
    ensures var later := Run(p, Run(p, Start(limit), events), more);
            Step(p, later, Begin(counted, maxTokens)) == later.(calls := later.calls + [Over])
  {
    hide Cost;
    hide Leaked;
    var m := Run(p, Start(limit), events);
    CutOffReservationsStay(p, limit, events, more);
    SpendingNeverShrinks(p, m, more);
    RunKeepsInvariant(p, Start(limit), events);
    RunKeepsInvariant(p, m, more);
  }

  lemma CostIsPositive(counted: nat, maxTokens: nat)
    requires counted + maxTokens > 0
    ensures Cost(Prices(1.0, 1.0), counted, maxTokens) > 0.0
  {
  }

  /** So one cut-off call is enough to end a session in which nothing was spent. */
  lemma OneCutOffCanEndSession(more: seq<Event>, counted: nat, maxTokens: nat)
    requires counted + maxTokens > 0 && forall i :: 0 <= i < |more| ==> UsageNotNegative(more[i])
    ensures var m := Run(Prices(1.0, 1.0), Start(0.004106), [Begin(10, 4096), Deadline(0)]);
            var later := Run(Prices(1.0, 1.0), m, more);
            m.budget.spent == 0.0 &&
            Step(Prices(1.0, 1.0), later, Begin(counted, maxTokens)) == later.(calls := later.calls + [Over])
  {
    hide Run;
    hide Cost;
    hide Step;
    hide Leaked;
    var p, events := Prices(1.0, 1.0), [Begin(10, 4096), Deadline(0)];
    ReservationCanLeak();
    CostIsPositive(counted, maxTokens);
    RefusedForEver(p, 0.004106, events, more, counted, maxTokens);
  }
}
