/** The request, descriptor and result values that the gateway's parts exchange (control_plane/contracts.py and
    control_plane/providers/base.py).  Prices and costs, decimal strings in the source, are exact reals. */
module Contracts {

  datatype Option<+T> = None | Some(value: T)

  datatype Result<+T, +E> = Ok(value: T) | Err(error: E)

  datatype Role = System | User | Assistant

  datatype Message = Message(role: Role, content: string)

  datatype Policy = Adaptive | RoundRobin | LowestCost | LowestLatency | HighestQuality | SingleProvider

  datatype Weights = Weights(cost: real, latency: real, utilization: real, quality: real)

  datatype RoutingOptions = RoutingOptions(
    policy: Policy,
    preferredProvider: Option<string>,
    maxLatencyMs: Option<int>,
    maxEstimatedCost: Option<real>,
    minQuality: Option<real>,
    allowedProviders: Option<seq<string>>,
    excludedProviders: seq<string>,
    simulatedFailureProvider: Option<string>,
    requireTrusted: bool,
    bypassCache: bool,
    weights: Weights)

  datatype Request = Request(
    model: string,
    messages: seq<Message>,
    temperature: real,
    maxTokens: nat,
    stream: bool,
    routing: RoutingOptions)

  datatype Descriptor = Descriptor(
    name: string,
    models: seq<string>,
    simulated: bool,
    nominalLatencyMs: int,
    inputPrice: real,   // per million tokens
    outputPrice: real,
    quality: real,
    utilization: real,
    trusted: bool)

  datatype FinishReason = Stop | Length

  datatype ProviderResult = ProviderResult(
    text: string,
    promptTokens: int,
    completionTokens: int,
    finishReason: FinishReason,
    estimatedCost: real)

  /** What request validation has established before a request reaches the gateway (contracts.py:81-85). */
  ghost predicate HasUserMessage(messages: seq<Message>) {
    exists i :: 0 <= i < |messages| && messages[i].role.User?
  }

  ghost predicate ValidWeights(w: Weights) {
    w.cost >= 0.0 && w.latency >= 0.0 && w.utilization >= 0.0 && w.quality >= 0.0
  }

  /** The message contents joined by single blanks. */
  function Joined(messages: seq<Message>): string {
    if |messages| == 0 then ""
    else if |messages| == 1 then messages[0].content
    else messages[0].content + " " + Joined(messages[1..])
  }

  function AtLeastOne(n: nat): (r: nat)
    ensures r >= 1
  {
    if n < 1 then 1 else n
  }

  /** The token estimate shared by routing.py:121-124 and deterministic.py:23. */
  function PromptTokens(messages: seq<Message>): (n: nat)
    ensures n >= 1
  {
    AtLeastOne(|Joined(messages)| / 4)
  }
}
