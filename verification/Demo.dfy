// A small concrete account, and what the policy decides about it.
module Demo {
  import opened Decimals
  import opened Models
  import opened Options
  import opened Texts
  import opened Policy
  import opened PolicyTheorems
  import opened Orders
  import opened StateMachine
  import opened StateMachineTheorems

  function DemoConfig(): Config {
    Config({"A", "B"}, Mainnet, "p", "h", Wallet, 1.0, 120, 15, 120, 600, 5,
           0.0, 0.0, 0.0, 0.0, 0.0, 1.0, 1.0, 0.0, 0.0, true, 0.0, 1.0, false, true, 15, 30, 15)
  }

  /** A long primary that pays one dollar a unit at the end of the first hour. */
  function DemoSnapshot(symbol: Symbol, primary: real, hedge: real, observedAt: Instant): Snapshot {
    Snapshot(symbol, Position("p", primary),
             HedgeAccount(Position("h", hedge), 100.0, 0.0, true, Wallet, true, true, false, None, None, false,
                          NoStatus, NoStatus, NoStatus),
             Funding(1.0, 1.0, 1.0, observedAt, HOUR, 0, true))
  }

  /** The executor cannot reach the exchange. */
  const OFFLINE := Environment(Some("offline"), 0, Lost("offline"), None, 0, Lost("offline"))

  /** An instant this many seconds before the settlement. */
  function Before(seconds: nat): Instant
    requires seconds <= 3600
  {
    HOUR - Seconds(seconds)
  }

  lemma DemoIsValid(symbol: Symbol, primary: real, hedge: real, observedAt: Instant)
    ensures DemoConfig().Valid() && DemoSnapshot(symbol, primary, hedge, observedAt).Valid()
    ensures Lower("p") != Lower("h")
  {
    assert Lower("p")[0] == 'p' && Lower("h")[0] == 'h';
  }

  lemma DemoBestSize(symbol: Symbol, observedAt: Instant)
    ensures DemoConfig().Valid() && IsBestSize(DemoConfig(), DemoSnapshot(symbol, 10.0, 0.0, observedAt), 10.0, true)
  {
    DemoIsValid(symbol, 10.0, 0.0, observedAt);
    assert LatticePoint(10, 0) == 10.0;
  }

  /** The flat demo account opens exactly inside the entry window. */
  lemma DemoOpens(symbol: Symbol, observedAt: Instant, now: Instant)
    requires ':' !in symbol && Before(130) <= observedAt <= now <= HOUR
    ensures DemoConfig().Valid() && DemoSnapshot(symbol, 10.0, 0.0, observedAt).Valid()
    ensures Evaluate(DemoConfig(), DemoSnapshot(symbol, 10.0, 0.0, observedAt), now, None).action.OpenHedge?
            <==> Before(120) <= now < Before(15) && now <= observedAt + Seconds(120)
  {
    DemoIsValid(symbol, 10.0, 0.0, observedAt);
    DemoBestSize(symbol, observedAt);
    OpensExactlyWhenWorthwhile(DemoConfig(), DemoSnapshot(symbol, 10.0, 0.0, observedAt), now, None, 10.0);
    DemoEconomics(symbol, observedAt);
    hide Evaluate, Charges, Earnings, PrimaryPays;
  }

  /** Ten units earn ten dollars, and nothing is charged. */
  lemma DemoEconomics(symbol: Symbol, observedAt: Instant)
    ensures var snapshot := DemoSnapshot(symbol, 10.0, 0.0, observedAt);
            PrimaryPays(snapshot) && Earnings(snapshot, 10.0) == 10.0 && Charges(DemoConfig(), snapshot, 10.0) == 0.0
  {
  }

  /** With no record the tick's decision is the policy's. */
  lemma FreshDecision(snapshot: Snapshot, now: Instant, env: Environment)
    requires DemoConfig().Valid() && snapshot.Valid()
    ensures var d := Evaluate(DemoConfig(), snapshot, now, None);
            && Preview(DemoConfig(), None, snapshot, now).decision == d
            && Execute(DemoConfig(), None, snapshot, now, env).result.decision == d
            && Decide(DemoConfig(), snapshot, now, None) == d
  {
    ActDecision(DemoConfig(), snapshot, now, None, env);
    hide Evaluate, Act;
  }
}
