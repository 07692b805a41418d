/** Poisson fills with the ask check outside the loop, over the quotes of the
    geometric whole-array strategy (executions/poisson_execution_for_paths.py).
    The loop over the T steps checks only the bid; the ask check that follows it is
    indented at the level of the `for`, so it runs once, after the loop, with the
    loop variable left at its last value T − 1. It therefore draws T + 1 uniforms in
    all: draws[i] for the bid at step i, then draws[T] for the single ask check. With
    T = 0 the loop variable was never bound and the ask check raises
    `UnboundLocalError`, after its draw has been taken.

    The constructor takes the strategy of strategies/avellaneda_stoikov_gbm.py. The
    demonstration run at the bottom of the Python file is not modelled. */
module PoissonExecutionForPaths {
  import opened Common
  import Reference
  import Fills
  import AvellanedaStoikovGbm

  class PoissonExecutionForPaths {
    const A: real
    const dt: real
    const spread: seq<real>
    const T: int
    var inventory: int
    const k: real
    const bidPrice: seq<real>
    const askPrice: seq<real>
    var cash: real

    /** One half-spread and one quote per side for each of the T steps. */
    predicate Valid()
    {
      T >= 0 && |spread| == T && |bidPrice| == T && |askPrice| == T
    }

    /** Copies timing, inventory, κ, the half-spreads and the quotes from the
        strategy, whose methods raise for γ = 0 or κ = 0. */
    constructor(np: NumPy, A: real, cash: real, strategy: AvellanedaStoikovGbm.AvellanedaStoikovGBM)
      requires strategy.Valid() && strategy.gamma != 0.0 && strategy.k != 0.0
      ensures Valid()
      ensures this.A == A && dt == strategy.dt && T == strategy.T && k == strategy.k
      ensures inventory == strategy.q && this.cash == cash
      ensures forall i :: 0 <= i < T ==>
                var res := Reference.Reservation(strategy.S[i], strategy.q,
                             Reference.GbmInventoryRisk(np, strategy.gamma, strategy.sigma, strategy.S[i], Elapsed(strategy.dt, i)));
                && spread[i] == Reference.GbmFullSpread(np, strategy.gamma, strategy.sigma, strategy.k, strategy.S[i], Elapsed(strategy.dt, i)) / 2.0
                && bidPrice[i] == res - spread[i]
                && askPrice[i] == res + spread[i]
    {
      this.A := A;
      dt := strategy.dt;
      var h := strategy.CalculateSpread(np);
      spread := h.value[..];
      T := strategy.T;
      inventory := strategy.q;
      k := strategy.k;
      var quotes := strategy.CalculateBidAsk(np);
      bidPrice := quotes.value.0[..];
      askPrice := quotes.value.1[..];
      this.cash := cash;
    }

    /** λ_bid = λ_ask = A·e^(−κ·h), element by element. */
    function Lambda(np: NumPy): seq<real>
    {
      Fills.Intensities(np, A, k, spread)
    }

    /** With T ≥ 1 the new state is the bid-only loop followed by one ask check at
        step T − 1 (`Fills.TrailingAsk`; `Fills.TrailingAskLedger` states what that
        does to the inventory and the cash). With T = 0 the call raises and nothing
        has changed. */
    method ExecuteOrders(np: NumPy, draws: seq<real>) returns (r: Result<Position>)
      requires Valid() && |draws| >= T + 1
      modifies this
      ensures T == 0 <==> r.Failure?
      ensures r.Failure? ==> r.error == UnboundLocalError("i") && inventory == old(inventory) && cash == old(cash)
      ensures r.Success? ==>
                Position(inventory, cash)
                == Fills.TrailingAsk(Position(old(inventory), old(cash)), bidPrice, askPrice,
                                     Fills.Consecutive(Lambda(np), dt, draws, T),
                                     Fills.Hit(draws[T], Lambda(np)[T - 1], dt), T)
      ensures r.Success? ==> r.value == Position(inventory, cash)
    {
      var lambdaAsk := Fills.Intensities(np, A, k, spread);
      var lambdaBid := Fills.Intensities(np, A, k, spread);
      BidLoop(lambdaBid, draws);
      if T == 0 {
        return Failure(UnboundLocalError("i"));
      }
      var i := T - 1;
      var askHit := Fills.Hit(draws[T], lambdaAsk[i], dt);
      if askHit {
        cash := cash + askPrice[i];
        inventory := inventory - 1;
      }
      return Success(Position(inventory, cash));
    }

    /** The `for` loop of `execute_orders`, which checks only the bid: step i buys
        one share at bid[i] iff draws[i] < λ_bid[i]·dt. It is the whole-horizon fill
        with an ask side that is never hit. */
    method BidLoop(lambdaBid: seq<real>, draws: seq<real>)
      requires Valid() && |lambdaBid| == T && |draws| >= T
      modifies this
      ensures Position(inventory, cash)
              == Fills.Horizon(Position(old(inventory), old(cash)), bidPrice, askPrice,
                               Fills.Consecutive(lambdaBid, dt, draws, T), Fills.NoHits(T), T)
    {
      var n: nat, bids, asks, step := T, bidPrice, askPrice, dt;
      ghost var bidHits := Fills.Consecutive(lambdaBid, step, draws, n);
      ghost var askHits := Fills.NoHits(n);
      ghost var start := Position(inventory, cash);
      for i := 0 to n
        invariant Position(inventory, cash) == Fills.Horizon(start, bids, asks, bidHits, askHits, i)
      {
        var bidHit := Fills.Hit(draws[i], lambdaBid[i], step);
        assert bidHits[i] == bidHit && !askHits[i];
        if bidHit {
          cash := cash - bids[i];
          inventory := inventory + 1;
        }
      }
    }
  }
}
