/** Whole-horizon Poisson fills against the quotes of the arithmetic whole-array
    strategy (executions/poisson_execution_for_abm.py). The object copies the
    strategy's dt, half-spread array, T, inventory, κ and bid/ask arrays, then one
    `execute_orders` walks all T steps, checking the bid and then the ask at each,
    updating its own cash and inventory. The 2T uniform draws are an input. */
module PoissonExecutionForAbm {
  import opened Common
  import Reference
  import Fills
  import AvellanedaStoikovForAbm

  class PoissonExecutionForAbm {
    const A: real
    const dt: real
    const spread: seq<real>
    const T: int
    var inventory: int
    const k: real
    const bidPrice: seq<real>
    const askPrice: seq<real>
    var cash: real

    /** One half-spread and one quote per side for each of the T steps. */
    predicate Valid()
    {
      T >= 0 && |spread| == T && |bidPrice| == T && |askPrice| == T
    }

    /** The quotes at step i are R[i] ∓ h[i] and the intensity uses h[i]. The
        strategy's methods raise for γ = 0 or κ = 0, so construction requires both
        non-zero. */
    constructor(np: NumPy, A: real, cash: real, strategy: AvellanedaStoikovForAbm.AvellanedaStoikovStrategyAbm)
      requires strategy.Valid() && strategy.gamma != 0.0 && strategy.k != 0.0
      ensures Valid()
      ensures this.A == A && dt == strategy.dt && T == strategy.T && k == strategy.k
      ensures inventory == strategy.q && this.cash == cash
      ensures forall i :: 0 <= i < T ==>
                var res := Reference.Reservation(strategy.S[i], strategy.q,
                             Reference.InventoryRisk(strategy.gamma, strategy.sigma, Elapsed(strategy.dt, i)));
                && spread[i] == Reference.FullSpread(np, strategy.gamma, strategy.sigma, strategy.k, Elapsed(strategy.dt, i)) / 2.0
                && bidPrice[i] == res - spread[i]
                && askPrice[i] == res + spread[i]
    {
      var h := strategy.CalculateSpread(np);
      var quotes := strategy.CalculateBidAsk(np);
      this.A := A;
      dt := strategy.dt;
      spread := h.value[..];
      T := strategy.T;
      inventory := strategy.q;
      k := strategy.k;
      bidPrice := quotes.value.0[..];
      askPrice := quotes.value.1[..];
      this.cash := cash;
    }

    /** The bid intensities; the ask side uses the same array. */
    function Lambda(np: NumPy): seq<real>
    {
      Fills.Intensities(np, A, k, spread)
    }

    /** Step i hits the bid iff its first draw is below λ[i]·dt and lifts the ask
        iff its second draw is. The new state is the whole-horizon fill of the old
        one, `Fills.Horizon`; `Fills.HorizonLedger` states its ledger (the inventory
        moves by the bid fills minus the ask fills, at most T either way, and the
        cash by the ask prices received minus the bid prices paid). A second call
        starts from where the first one left off. */
    method ExecuteOrders(np: NumPy, draws: seq<(real, real)>) returns (r: Position)
      requires Valid() && |draws| >= T
      modifies this
      ensures Position(inventory, cash)
              == Fills.Horizon(Position(old(inventory), old(cash)), bidPrice, askPrice,
                               Fills.BidHits(Lambda(np), dt, draws, T),
                               Fills.AskHits(Lambda(np), dt, draws, T), T)
      ensures r == Position(inventory, cash)
    {
      var n: nat, bids, asks, step := T, bidPrice, askPrice, dt;
      var lambdaBid := Fills.Intensities(np, A, k, spread);
      var lambdaAsk := Fills.Intensities(np, A, k, spread);
      ghost var bidHits := Fills.BidHits(lambdaBid, step, draws, n);
      ghost var askHits := Fills.AskHits(lambdaAsk, step, draws, n);
      ghost var start := Position(inventory, cash);
      for i := 0 to n
        invariant Position(inventory, cash) == Fills.Horizon(start, bids, asks, bidHits, askHits, i)
      {
        var bidHit := Fills.Hit(draws[i].0, lambdaBid[i], step);
        assert bidHits[i] == bidHit;
        if bidHit {
          cash := cash - bids[i];
          inventory := inventory + 1;
        }
        var askHit := Fills.Hit(draws[i].1, lambdaAsk[i], step);
        assert askHits[i] == askHit;
        if askHit {
          cash := cash + asks[i];
          inventory := inventory - 1;
        }
      }
      return Position(inventory, cash);
    }
  }
}
