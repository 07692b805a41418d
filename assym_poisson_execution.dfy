/** Whole-horizon asymmetric Poisson fills (executions/Assym_Poisson_Execution.py):
    each side has its own base intensity and decay, both applied to the same
    half-spread h[i], and the intensities are recomputed inside the loop at every
    step. The quotes come from the arithmetic whole-array strategy, whose `dt`, `T`,
    `q`, `calculate_spread()` and `calculate_bid_ask()` are what the constructor
    reads. The 2T uniform draws are an input, one (bid, ask) pair per step. */
module AssymPoissonExecution {
  import opened Common
  import Reference
  import Fills
  import AvellanedaStoikovForAbm
  import PoissonExecutionForAbm

  class AsymPoissonOrderExecution {
    const A_bid: real
    const A_ask: real
    const k_bid: real
    const k_ask: real
    const dt: real
    const spread: seq<real>
    const T: int
    var inventory: int
    const bidPrice: seq<real>
    const askPrice: seq<real>
    var cash: real

    /** One half-spread and one quote per side for each of the T steps. */
    predicate Valid()
    {
      T >= 0 && |spread| == T && |bidPrice| == T && |askPrice| == T
    }

    /** The four asymmetric parameters are stored as given; timing, inventory, the
        half-spreads and the quotes are copied from the strategy, whose methods
        raise for γ = 0 or κ = 0. */
    constructor(np: NumPy, A_bid: real, A_ask: real, k_bid: real, k_ask: real, cash: real,
                strategy: AvellanedaStoikovForAbm.AvellanedaStoikovStrategyAbm)
      requires strategy.Valid() && strategy.gamma != 0.0 && strategy.k != 0.0
      ensures Valid()
      ensures this.A_bid == A_bid && this.A_ask == A_ask && this.k_bid == k_bid && this.k_ask == k_ask
      ensures dt == strategy.dt && T == strategy.T && inventory == strategy.q && this.cash == cash
      ensures forall i :: 0 <= i < T ==>
                var res := Reference.Reservation(strategy.S[i], strategy.q,
                             Reference.InventoryRisk(strategy.gamma, strategy.sigma, Elapsed(strategy.dt, i)));
                && spread[i] == Reference.FullSpread(np, strategy.gamma, strategy.sigma, strategy.k, Elapsed(strategy.dt, i)) / 2.0
                && bidPrice[i] == res - spread[i]
                && askPrice[i] == res + spread[i]
    {
      this.A_bid := A_bid;
      this.A_ask := A_ask;
      this.k_bid := k_bid;
      this.k_ask := k_ask;
      dt := strategy.dt;
      var h := strategy.CalculateSpread(np);
      spread := h.value[..];
      T := strategy.T;
      inventory := strategy.q;
      var quotes := strategy.CalculateBidAsk(np);
      bidPrice := quotes.value.0[..];
      askPrice := quotes.value.1[..];
      this.cash := cash;
    }

    /** λ_bid[i] = A_bid·e^(−k_bid·h[i]), as step i computes it. */
    function LambdaBid(np: NumPy): seq<real>
    {
      Fills.Intensities(np, A_bid, k_bid, spread)
    }

    /** λ_ask[i] = A_ask·e^(−k_ask·h[i]), from the same half-spread. */
    function LambdaAsk(np: NumPy): seq<real>
    {
      Fills.Intensities(np, A_ask, k_ask, spread)
    }

    /** Step i hits the bid iff its first draw is below λ_bid[i]·dt and lifts the
        ask iff its second draw is below λ_ask[i]·dt. The new state is the
        whole-horizon fill of the old one, `Fills.Horizon`, whose ledger
        `Fills.HorizonLedger` states. */
    method ExecuteOrders(np: NumPy, draws: seq<(real, real)>) returns (r: Position)
      requires Valid() && |draws| >= T
      modifies this
      ensures Position(inventory, cash)
              == Fills.Horizon(Position(old(inventory), old(cash)), bidPrice, askPrice,
                               Fills.BidHits(LambdaBid(np), dt, draws, T),
                               Fills.AskHits(LambdaAsk(np), dt, draws, T), T)
      ensures r == Position(inventory, cash)
    {
      var n: nat, h, bids, asks, step := T, spread, bidPrice, askPrice, dt;
      ghost var bidHits := Fills.BidHits(LambdaBid(np), step, draws, n);
      ghost var askHits := Fills.AskHits(LambdaAsk(np), step, draws, n);
      ghost var start := Position(inventory, cash);
      for i := 0 to n
        invariant Position(inventory, cash) == Fills.Horizon(start, bids, asks, bidHits, askHits, i)
      {
        var lambdaBid := Fills.Intensity(np, A_bid, k_bid, h[i]);
        var lambdaAsk := Fills.Intensity(np, A_ask, k_ask, h[i]);
        var bidHit := Fills.Hit(draws[i].0, lambdaBid, step);
        assert bidHits[i] == bidHit;
        if bidHit {
          cash := cash - bids[i];
          inventory := inventory + 1;
        }
        var askHit := Fills.Hit(draws[i].1, lambdaAsk, step);
        assert askHits[i] == askHit;
        if askHit {
          cash := cash + asks[i];
          inventory := inventory - 1;
        }
      }
      return Position(inventory, cash);
    }

    /** With A_bid = A_ask and k_bid = k_ask both sides use one intensity array,
        the one a symmetric whole-horizon execution with the same A, k, half-spreads
        and quotes computes, so for the same draws the new state is the one that
        execution's `execute_orders` reaches from the same start. */
    lemma SymmetricParametersGiveSymmetricLoop(np: NumPy, sym: PoissonExecutionForAbm.PoissonExecutionForAbm,
                                               p: Position, draws: seq<(real, real)>)
      requires Valid() && |draws| >= T
      requires A_bid == A_ask == sym.A && k_bid == k_ask == sym.k
      requires sym.spread == spread && sym.dt == dt && sym.T == T
      requires sym.bidPrice == bidPrice && sym.askPrice == askPrice
      ensures LambdaBid(np) == LambdaAsk(np) == sym.Lambda(np)
      ensures Fills.Horizon(p, bidPrice, askPrice, Fills.BidHits(LambdaBid(np), dt, draws, T),
                            Fills.AskHits(LambdaAsk(np), dt, draws, T), T)
              == Fills.Horizon(p, sym.bidPrice, sym.askPrice, Fills.BidHits(sym.Lambda(np), sym.dt, draws, sym.T),
                               Fills.AskHits(sym.Lambda(np), sym.dt, draws, sym.T), sym.T)
    {
    }
  }
}
