/** One step of asymmetric Poisson fills (executions/asym_poisson_execution.py): each
    side has its own base intensity and decay, and the distance fed to the decay is
    the absolute value of the quoted price itself. The constructor's cash argument is
    stored and never read; so is the optional strategy, which is not modelled. */
module AsymPoissonExecution {
  import opened Common
  import Fills

  datatype AsymPoissonOrderExecution = AsymPoissonOrderExecution(
    A_bid: real, A_ask: real, k_bid: real, k_ask: real, cash: real)

  /** Python's `abs` on a float. */
  function Abs(x: real): (r: real)
    ensures r >= 0.0 && (r == x || r == -x)
  {
    if x < 0.0 then -x else x
  }

  function LambdaBid(e: AsymPoissonOrderExecution, np: NumPy, bidPrice: real): real
  {
    Fills.Intensity(np, e.A_bid, e.k_bid, Abs(bidPrice))
  }

  function LambdaAsk(e: AsymPoissonOrderExecution, np: NumPy, askPrice: real): real
  {
    Fills.Intensity(np, e.A_ask, e.k_ask, Abs(askPrice))
  }

  /** The bid fills iff draw₁ < λ_bid·dt, then the ask iff draw₂ < λ_ask·dt. */
  function ExecuteOrders(e: AsymPoissonOrderExecution, np: NumPy, bidPrice: real, askPrice: real,
                         inventory: int, cash: real, dt: real, draw1: real, draw2: real): (r: Position)
    ensures r == Fills.Fill(Position(inventory, cash), bidPrice, askPrice,
                            Fills.Hit(draw1, LambdaBid(e, np, bidPrice), dt),
                            Fills.Hit(draw2, LambdaAsk(e, np, askPrice), dt))
    ensures -1 <= r.inventory - inventory <= 1
    ensures r.cash - cash in {0.0, -bidPrice, askPrice, askPrice - bidPrice}
  {
    var bidSpread := Abs(bidPrice);
    var askSpread := Abs(askPrice);
    var lambdaBid := Fills.Intensity(np, e.A_bid, e.k_bid, bidSpread);
    var lambdaAsk := Fills.Intensity(np, e.A_ask, e.k_ask, askSpread);
    var afterBid := if Fills.Hit(draw1, lambdaBid, dt) then Position(inventory + 1, cash - bidPrice)
                    else Position(inventory, cash);
    if Fills.Hit(draw2, lambdaAsk, dt) then Position(afterBid.inventory - 1, afterBid.cash + askPrice)
    else afterBid
  }

  /** The cash stored at construction plays no part: only the cash passed in does. */
  lemma StoredCashIsUnused(e: AsymPoissonOrderExecution, np: NumPy, storedCash: real, bidPrice: real, askPrice: real,
                           inventory: int, cash: real, dt: real, draw1: real, draw2: real)
    ensures ExecuteOrders(e, np, bidPrice, askPrice, inventory, cash, dt, draw1, draw2)
            == ExecuteOrders(e.(cash := storedCash), np, bidPrice, askPrice, inventory, cash, dt, draw1, draw2)
  {
  }

  /** A price's sign does not change its intensity: quoting −p gives the same fill
      chance as quoting p. */
  lemma IntensityIgnoresSign(e: AsymPoissonOrderExecution, np: NumPy, price: real)
    ensures LambdaBid(e, np, -price) == LambdaBid(e, np, price)
    ensures LambdaAsk(e, np, -price) == LambdaAsk(e, np, price)
  {
  }
}
