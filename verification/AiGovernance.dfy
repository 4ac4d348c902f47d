/**
 * One governed AI call (src/ai/governance.js): the kill switches, the route, the budget and
 * cancellation checks that come before any upstream request, and the price of a completion
 * (src/ai/pricing.js).
 */
module AiGovernance {
  import opened Options

  datatype Connection = Connection(status: ConnectionStatus, loads: bool, budget: int)
  datatype ConnectionStatus = Active | Disabled | Revoked
  datatype Organization = Organization(aiDisabled: bool, connection: Option<Connection>)

  datatype Code = AI_DISABLED | AI_BUDGET_EXCEEDED | AI_CONNECTION_DISABLED | AI_CONNECTION_UNAVAILABLE | AI_UNAVAILABLE | ABORTED | PROVIDER_ERROR

  datatype Upstream = Answer(text: string) | SetupFailure | OtherFailure

  /** Everything a call reads: switches, organization state, spend, cancellation, and what the provider would do. */
  datatype World = World(
    platformDisabled: bool, organization: Option<Organization>,
    platformConfigured: bool, spent: int, abortedEarly: bool, abortedLate: bool, upstream: Upstream)

  datatype Reply = Text(text: string) | Error(code: Code)

  /** What the caller sees, and whether an upstream request was made. */
  datatype CallResult = CallResult(attempted: bool, reply: Reply)

  datatype Route = ToPlatform | ToByok(connection: Connection) | Denied(code: Code)

  function RouteFor(w: World): Route {
    if w.platformDisabled then Denied(AI_DISABLED)
    else if w.organization.None? then ToPlatform
    else if w.organization.value.aiDisabled then Denied(AI_DISABLED)
    else
      match w.organization.value.connection
      case None => ToPlatform
      case Some(c) =>
        if c.status.Revoked? then ToPlatform
        else if c.status.Disabled? then Denied(AI_CONNECTION_DISABLED)
        else if !c.loads then Denied(AI_CONNECTION_UNAVAILABLE)
        else ToByok(c)
  }

  function Call(w: World): CallResult {
    match RouteFor(w)
    case Denied(code) => CallResult(false, Error(code))
    case ToPlatform =>
      if w.abortedEarly then CallResult(false, Error(ABORTED))
      else if !w.platformConfigured then CallResult(false, Error(AI_UNAVAILABLE))
      else
        (match w.upstream
         case Answer(text) => CallResult(true, Text(text))
         case SetupFailure => CallResult(true, Error(AI_UNAVAILABLE))
         case OtherFailure => CallResult(true, Error(PROVIDER_ERROR)))
    case ToByok(c) =>
      if w.abortedEarly then CallResult(false, Error(ABORTED))
      else if w.spent >= c.budget then CallResult(false, Error(AI_BUDGET_EXCEEDED))
      else if w.abortedLate then CallResult(false, Error(ABORTED))
      else
        match w.upstream
        case Answer(text) => CallResult(true, Text(text))
        case _ => CallResult(true, Error(PROVIDER_ERROR))
  }

  // ---------------------------------------------------------------- which calls go upstream

  /** AI is on for the platform and for the caller's organization. */
  predicate SwitchedOn(w: World) {
    !w.platformDisabled && (w.organization.Some? ==> !w.organization.value.aiDisabled)
  }

  /** The organization brought its own connection and has not revoked it. */
  predicate HasConnection(w: World) {
    && w.organization.Some? && w.organization.value.connection.Some?
    && !w.organization.value.connection.value.status.Revoked?
  }

  function ConnectionOf(w: World): Connection
    requires HasConnection(w)
  {
    w.organization.value.connection.value
  }

  /** The connection can be used: active, and its key loads. */
  predicate ConnectionWorks(w: World)
    requires HasConnection(w)
  {
    ConnectionOf(w).status.Active? && ConnectionOf(w).loads
  }

  /** The call would go to a working connection whose month is spent. */
  predicate OverBudget(w: World) {
    SwitchedOn(w) && HasConnection(w) && ConnectionWorks(w) && !w.abortedEarly && w.spent >= ConnectionOf(w).budget
  }

  /**
   * An upstream request is made exactly when AI is on, the call was not aborted, and its
   * organization's connection works and is under its budget, or, for want of a connection, the
   * platform's provider is configured.
   */
  lemma AttemptedExactlyWhen(w: World)
    ensures Call(w).attempted <==>
              && !w.platformDisabled
              && (w.organization.Some? ==> !w.organization.value.aiDisabled)
              && !w.abortedEarly
              && if HasConnection(w)
                 then ConnectionOf(w).status.Active? && ConnectionOf(w).loads && w.spent < ConnectionOf(w).budget && !w.abortedLate
                 else w.platformConfigured
  {
  }

  /** Why the others are refused, the first reason counting; none of these was attempted. */
  lemma RefusalsAreExact(w: World)
    ensures Call(w) == CallResult(false, Error(AI_DISABLED)) <==> !SwitchedOn(w)
    ensures Call(w) == CallResult(false, Error(AI_CONNECTION_DISABLED))
            <==> SwitchedOn(w) && HasConnection(w) && ConnectionOf(w).status.Disabled?
    ensures Call(w) == CallResult(false, Error(AI_CONNECTION_UNAVAILABLE))
            <==> SwitchedOn(w) && HasConnection(w) && ConnectionOf(w).status.Active? && !ConnectionOf(w).loads
    ensures Call(w) == CallResult(false, Error(AI_BUDGET_EXCEEDED))
            <==> OverBudget(w)
    ensures Call(w) == CallResult(false, Error(AI_UNAVAILABLE))
            <==> SwitchedOn(w) && !HasConnection(w) && !w.abortedEarly && !w.platformConfigured
    ensures Call(w) == CallResult(false, Error(ABORTED))
            <==> SwitchedOn(w) && (HasConnection(w) ==> ConnectionWorks(w)) &&
                 (w.abortedEarly || (HasConnection(w) && w.spent < ConnectionOf(w).budget && w.abortedLate))
    ensures !Call(w).attempted ==> Call(w).reply.Error? && !Call(w).reply.code.PROVIDER_ERROR?
  {
  }

  /** What an attempted call comes back with: the answer, or that the provider failed. */
  lemma AttemptsReturnTheUpstream(w: World)
    requires Call(w).attempted
    ensures forall text :: Call(w).reply == Text(text) <==> w.upstream == Answer(text)
    ensures !w.upstream.Answer? ==>
              Call(w).reply == Error(if w.upstream.SetupFailure? && !HasConnection(w) then AI_UNAVAILABLE else PROVIDER_ERROR)
  {
  }

  // ---------------------------------------------------------------- pricing

  const TOKENS_PER_UNIT := 1_000_000.0
  const COST_UNITS := 10_000.0

  datatype Price = Price(input: real, output: real)

  /** `Math.round`: halves go up. */
  function Round(x: real): int {
    (x + 0.5).Floor
  }

  function ExactCents(price: Price, promptTokens: nat, completionTokens: nat): real {
    (promptTokens as real * price.input + completionTokens as real * price.output) / TOKENS_PER_UNIT
  }

  /** Estimated cost in ten-thousandths of a cent; None when the model has no configured price. */
  function EstimateCost(model: string, promptTokens: nat, completionTokens: nat, prices: map<string, Price>): Option<int> {
    if model in prices then Some(Round(ExactCents(prices[model], promptTokens, completionTokens) * COST_UNITS)) else None
  }

  /** A million prompt tokens cost the input price, a million completion tokens the output price, and costs add up. */
  lemma PricesArePerMillion(price: Price, p1: nat, c1: nat, p2: nat, c2: nat)
    ensures ExactCents(price, 1_000_000, 0) == price.input && ExactCents(price, 0, 1_000_000) == price.output
    ensures ExactCents(price, p1 + p2, c1 + c2) == ExactCents(price, p1, c1) + ExactCents(price, p2, c2)
    ensures forall model, prices :: EstimateCost(model, p1, c1, prices).Some? <==> model in prices
  {
    assert (p1 + p2) as real * price.input == p1 as real * price.input + p2 as real * price.input;
    assert (c1 + c2) as real * price.output == c1 as real * price.output + c2 as real * price.output;
  }

  /** Every recorded cost is within half a recording unit of the exact price, and more tokens never cost less. */
  lemma CostIsWithinHalfAUnit(model: string, prompt: nat, completion: nat, prices: map<string, Price>)
    requires model in prices && prices[model].input >= 0.0 && prices[model].output >= 0.0
    ensures var cost := EstimateCost(model, prompt, completion, prices).value as real / 10_000.0;
            var exact := ExactCents(prices[model], prompt, completion);
            -0.000_05 <= exact - cost < 0.000_05
    ensures EstimateCost(model, prompt, completion, prices).value >= 0
  {
    var exact := ExactCents(prices[model], prompt, completion);
    var n := Round(exact * COST_UNITS);
    assert (n as real) <= exact * COST_UNITS + 0.5 < (n as real) + 1.0;
    assert prompt as real * prices[model].input >= 0.0 && completion as real * prices[model].output >= 0.0;
  }

  /** A bound on the tokens of a call bounds its recorded cost. */
  lemma CostIsMonotone(model: string, p1: nat, c1: nat, p2: nat, c2: nat, prices: map<string, Price>)
    requires model in prices && prices[model].input >= 0.0 && prices[model].output >= 0.0
    requires p1 <= p2 && c1 <= c2
    ensures EstimateCost(model, p1, c1, prices).value <= EstimateCost(model, p2, c2, prices).value
  {
    var price := prices[model];
    assert p1 as real * price.input <= p2 as real * price.input;
    assert c1 as real * price.output <= c2 as real * price.output;
    RoundIsMonotone(ExactCents(price, p1, c1) * COST_UNITS, ExactCents(price, p2, c2) * COST_UNITS);
  }

  lemma RoundIsMonotone(x: real, y: real)
    requires x <= y
    ensures Round(x) <= Round(y)
  {
    assert (Round(x) as real) <= x + 0.5 && y + 0.5 < (Round(y) as real) + 1.0;
  }
}
