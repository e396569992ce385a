// The only write boundary: orders for the hedge account, with their expiry set
// on the exchange immediately before each is posted.
module Executor {
  import opened Decimals
  import opened Models
  import opened Options
  import opened Orders
  import opened StateStore

  class Exchange {
    var expiresAfterMs: int
    const journal: Journal

    constructor (journal: Journal)
      ensures this.journal == journal
    {
      this.journal := journal;
      expiresAfterMs := 0;
    }

    method SetExpiresAfter(ms: int)
      modifies this
      ensures expiresAfterMs == ms
    {
      expiresAfterMs := ms;
    }

    /** Posts an immediate-or-cancel order carrying the expiry last set. */
    method Post(symbol: Symbol, isBuy: bool, size: real, reduceOnly: bool, cloid: Cloid)
      modifies journal
      ensures journal.effects
              == old(journal.effects) + [Posted(Order(symbol, isBuy, size, reduceOnly, cloid, expiresAfterMs))]
    {
      ghost var order := Order(symbol, isBuy, size, reduceOnly, cloid, expiresAfterMs);
      journal.effects := journal.effects + [Posted(order)];
    }
  }

  class HedgeExecutor {
    const config: Config
    const exchange: Exchange

    constructor (config: Config, exchange: Exchange)
      ensures this.config == config && this.exchange == exchange
    {
      this.config := config;
      this.exchange := exchange;
    }

    /** Sets the expiry of the next action, or refuses when the deadline has passed. */
    method SetActionExpiry(now: Instant, deadline: Option<int>) returns (ok: bool)
      modifies exchange
      ensures ok <==> deadline.None? || Millis(now) < Millis(deadline.value)
      ensures ok ==> Some(exchange.expiresAfterMs) == Expiry(config, now, deadline)
      ensures !ok ==> exchange.expiresAfterMs == old(exchange.expiresAfterMs)
      ensures ok && deadline.Some? ==> exchange.expiresAfterMs <= Millis(deadline.value)
      ensures ok ==> Millis(now) < exchange.expiresAfterMs || config.actionExpirySeconds == 0
    {
      var nowMs := Millis(now);
      var expiryMs := nowMs + config.actionExpirySeconds * 1000;
      if deadline.Some? {
        var deadlineMs := Millis(deadline.value);
        if nowMs >= deadlineMs {
          return false;
        }
        expiryMs := if deadlineMs < expiryMs then deadlineMs else expiryMs;
      }
      exchange.SetExpiresAfter(expiryMs);
      return true;
    }

    method OpenHedge(symbol: Symbol, signedSize: real, cloid: Cloid, deadline: int, env: Environment)
      returns (outcome: Outcome)
      modifies exchange, exchange.journal
      ensures var request := OpenRequest(symbol, signedSize, cloid, deadline);
              && outcome == AttemptFor(config, request, env).outcome
              && exchange.journal.effects == old(exchange.journal.effects) + Calls(config, request, env)
    {
      ghost var request := OpenRequest(symbol, signedSize, cloid, deadline);
      exchange.journal.effects := exchange.journal.effects + [Asked(request)];
      if symbol !in config.symbols {
        return Failed("symbol is not allowlisted");
      }
      var size := Abs(signedSize);
      if size <= 0.0 {
        return Failed("order size must be positive");
      }
      if env.setupError.Some? {
        return Failed(env.setupError.value);
      }
      var inTime := SetActionExpiry(env.firstClock, Some(deadline));
      if !inTime {
        return Failed("hedge open deadline has already passed");
      }
      if env.leverage.Lost? {
        return Failed(env.leverage.text);
      }
      if !env.leverage.Accepted() {
        return Failed("failed to set hedge leverage/margin mode");
      }
      if env.priceError.Some? {
        return Failed(env.priceError.value);
      }
      inTime := SetActionExpiry(env.secondClock, Some(deadline));
      if !inTime {
        return Failed("hedge open deadline has already passed");
      }
      exchange.Post(symbol, signedSize > 0.0, size, false, cloid);
      outcome := Read(env.reply, size);
    }

    method CloseHedge(symbol: Symbol, currentSize: real, size: real, cloid: Cloid, env: Environment)
      returns (outcome: Outcome)
      modifies exchange, exchange.journal
      ensures var request := CloseRequest(symbol, currentSize, size, cloid);
              && outcome == AttemptFor(config, request, env).outcome
              && exchange.journal.effects == old(exchange.journal.effects) + Calls(config, request, env)
    {
      ghost var request := CloseRequest(symbol, currentSize, size, cloid);
      exchange.journal.effects := exchange.journal.effects + [Asked(request)];
      if currentSize == 0.0 {
        return Failed("current size must be non-zero");
      }
      if size <= 0.0 {
        return Failed("order size must be positive");
      }
      if env.setupError.Some? {
        return Failed(env.setupError.value);
      }
      if env.priceError.Some? {
        return Failed(env.priceError.value);
      }
      var inTime := SetActionExpiry(env.secondClock, None);
      exchange.Post(symbol, currentSize < 0.0, size, true, cloid);
      outcome := Read(env.reply, size);
    }
  }
}
