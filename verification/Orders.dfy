// Requests to the executor, the orders it posts, and what the outside answers.
module Orders {
  import opened Decimals
  import opened Models
  import opened Options

  datatype Request =
    | OpenRequest(symbol: Symbol, signedSize: real, cloid: Cloid, deadline: int)
    | CloseRequest(symbol: Symbol, currentSize: real, size: real, cloid: Cloid)

  /** An immediate-or-cancel order as posted for the hedge account. */
  datatype Order = Order(
    symbol: Symbol, isBuy: bool, size: real, reduceOnly: bool, cloid: Cloid, expiresAfterMs: int)
  {
    function Signed(): real {
      if isBuy then size else -size
    }
  }

  /** An exchange call either raises or returns a payload. */
  datatype Reply = Lost(text: string) | Response(statusOk: bool, error: string, filled: real)
  {
    predicate Accepted() {
      Response? && statusOk && error == ""
    }
  }

  /** Everything outside the process that one executor call meets, in the order it is met. */
  datatype Environment = Environment(
    setupError: Option<string>,
    firstClock: Instant,
    leverage: Reply,
    priceError: Option<string>,
    secondClock: Instant,
    reply: Reply)

  datatype Execution = Execution(accepted: bool, requested: real, filled: real, error: string)

  datatype Outcome = Failed(text: string) | Executed(execution: Execution)

  /** The order that reached the wire, if any, and what the caller learned. */
  datatype Attempt = Attempt(posted: Option<Order>, outcome: Outcome)

  /** The expiry of an action submitted now, or None when its deadline has passed. */
  function Expiry(config: Config, now: Instant, deadline: Option<int>): Option<int> {
    var expiry := Millis(now) + config.actionExpirySeconds * 1000;
    if deadline.None? then Some(expiry)
    else if Millis(now) >= Millis(deadline.value) then None
    else Some(if Millis(deadline.value) < expiry then Millis(deadline.value) else expiry)
  }

  /** How a posted order's reply is read. */
  function Read(reply: Reply, requested: real): Outcome {
    match reply
    case Lost(text) => Failed(text)
    case Response(ok, error, filled) =>
      if !reply.Accepted() && error == "" then Failed("unrecognized exchange response")
      else Executed(Execution(reply.Accepted(), requested, filled, error))
  }

  function OpenAttempt(config: Config, request: Request, env: Environment): Attempt
    requires request.OpenRequest?
  {
    var size := Abs(request.signedSize);
    var first := Expiry(config, env.firstClock, Some(request.deadline));
    var second := Expiry(config, env.secondClock, Some(request.deadline));
    if request.symbol !in config.symbols then Attempt(None, Failed("symbol is not allowlisted"))
    else if size <= 0.0 then Attempt(None, Failed("order size must be positive"))
    else if env.setupError.Some? then Attempt(None, Failed(env.setupError.value))
    else if first.None? then Attempt(None, Failed("hedge open deadline has already passed"))
    else if env.leverage.Lost? then Attempt(None, Failed(env.leverage.text))
    else if !env.leverage.Accepted() then Attempt(None, Failed("failed to set hedge leverage/margin mode"))
    else if env.priceError.Some? then Attempt(None, Failed(env.priceError.value))
    else if second.None? then Attempt(None, Failed("hedge open deadline has already passed"))
    else
      Attempt(Some(Order(request.symbol, request.signedSize > 0.0, size, false, request.cloid, second.value)),
              Read(env.reply, size))
  }

  function CloseAttempt(config: Config, request: Request, env: Environment): Attempt
    requires request.CloseRequest?
  {
    if request.currentSize == 0.0 then Attempt(None, Failed("current size must be non-zero"))
    else if request.size <= 0.0 then Attempt(None, Failed("order size must be positive"))
    else if env.setupError.Some? then Attempt(None, Failed(env.setupError.value))
    else if env.priceError.Some? then Attempt(None, Failed(env.priceError.value))
    else
      Attempt(Some(Order(request.symbol, request.currentSize < 0.0, request.size, true, request.cloid,
                         Expiry(config, env.secondClock, None).value)),
              Read(env.reply, request.size))
  }

  function AttemptFor(config: Config, request: Request, env: Environment): Attempt {
    match request
    case OpenRequest(_, _, _, _) => OpenAttempt(config, request, env)
    case CloseRequest(_, _, _, _) => CloseAttempt(config, request, env)
  }

  /** One externally visible step: a state file replaced, the executor called, an order posted. */
  datatype Effect<D> = Stored(data: D) | Asked(request: Request) | Posted(order: Order)

  /** What one executor call leaves in the journal. */
  function Calls<D>(config: Config, request: Request, env: Environment): seq<Effect<D>> {
    var attempt := AttemptFor(config, request, env);
    [Asked(request)] + if attempt.posted.Some? then [Posted(attempt.posted.value)] else []
  }

  /** A posted order carries the request's identity, direction, size and deadline. */
  lemma PostedMatchesRequest(config: Config, request: Request, env: Environment)
    requires AttemptFor(config, request, env).posted.Some?
    ensures var o := AttemptFor(config, request, env).posted.value;
            && o.symbol == request.symbol && o.cloid == request.cloid && o.size > 0.0
            && (request.OpenRequest? ==>
                  && !o.reduceOnly && o.Signed() == request.signedSize && o.symbol in config.symbols
                  && o.expiresAfterMs * 1000 <= request.deadline)
            && (request.CloseRequest? ==>
                  && o.reduceOnly && o.size == request.size
                  && o.Signed() == -Sign(request.currentSize) * request.size)
  {
  }
}
