/** One step of Poisson fills (executions/poisson_execution_abm.py): a single
    intensity λ = A·e^(−k·(ask − bid)) serves both sides; the two uniform draws are
    the two `np.random.rand()` calls, bid first. */
module PoissonExecutionAbm {
  import opened Common
  import Fills

  datatype PoissonExecutionForAbm = PoissonExecutionForAbm(A: real, k: real)

  /** The intensity both sides use when quoting bid and ask. */
  function Lambda(e: PoissonExecutionForAbm, np: NumPy, bidPrice: real, askPrice: real): real
  {
    Fills.Intensity(np, e.A, e.k, askPrice - bidPrice)
  }

  /** The new (inventory, cash): the bid fills iff draw₁ < λ·dt (one share bought at
      the bid), then the ask fills iff draw₂ < λ·dt (one share sold at the ask). */
  function ExecuteOrders(e: PoissonExecutionForAbm, np: NumPy, bidPrice: real, askPrice: real,
                         inventory: int, cash: real, dt: real, draw1: real, draw2: real): (r: Position)
    ensures r == Fills.Fill(Position(inventory, cash), bidPrice, askPrice,
                            Fills.Hit(draw1, Lambda(e, np, bidPrice, askPrice), dt),
                            Fills.Hit(draw2, Lambda(e, np, bidPrice, askPrice), dt))
    ensures -1 <= r.inventory - inventory <= 1
  {
    var spread := askPrice - bidPrice;
    var lambdaBid := Fills.Intensity(np, e.A, e.k, spread);
    var lambdaAsk := Fills.Intensity(np, e.A, e.k, spread);
    var afterBid := if Fills.Hit(draw1, lambdaBid, dt) then Position(inventory + 1, cash - bidPrice)
                    else Position(inventory, cash);
    if Fills.Hit(draw2, lambdaAsk, dt) then Position(afterBid.inventory - 1, afterBid.cash + askPrice)
    else afterBid
  }

  /** When λ·dt ≥ 1 every draw from [0, 1) fills both sides: the inventory is
      unchanged and the cash gains the quoted spread. */
  lemma SaturatedIntensityFillsBoth(e: PoissonExecutionForAbm, np: NumPy, bidPrice: real, askPrice: real,
                                    inventory: int, cash: real, dt: real, draw1: real, draw2: real)
    requires Lambda(e, np, bidPrice, askPrice) * dt >= 1.0
    requires 0.0 <= draw1 < 1.0 && 0.0 <= draw2 < 1.0
    ensures ExecuteOrders(e, np, bidPrice, askPrice, inventory, cash, dt, draw1, draw2)
            == Position(inventory, cash + (askPrice - bidPrice))
  {
    Fills.RoundTrip(Position(inventory, cash), bidPrice, askPrice);
  }

  /** The four outcomes of a step, and nothing else: the inventory moves by at most
      one share and the cash by 0, −bid, +ask or ask − bid. */
  lemma StepOutcomes(e: PoissonExecutionForAbm, np: NumPy, bidPrice: real, askPrice: real,
                     inventory: int, cash: real, dt: real, draw1: real, draw2: real)
    ensures var r := ExecuteOrders(e, np, bidPrice, askPrice, inventory, cash, dt, draw1, draw2);
            r.cash - cash in {0.0, -bidPrice, askPrice, askPrice - bidPrice}
  {
    var l := Lambda(e, np, bidPrice, askPrice);
    Fills.FillBounds(Position(inventory, cash), bidPrice, askPrice, Fills.Hit(draw1, l, dt), Fills.Hit(draw2, l, dt));
  }
}
