/** The step runner (core/simulation_runner.py): one mid-price path is simulated up
    front, then at each step i < ⌊T/dt⌋ the strategy quotes around the reservation
    price from the inventory held before the step, the execution model fills the
    quotes, the ledger takes the difference, and seven values are logged. The
    strategy and the execution model are any of the per-step classes whose methods
    the runner calls by keyword; the market is the geometric simulator, the one
    whose `simulate` takes the step count. */
module SimulationRunner {
  import opened Common
  import Ledger
  import Logging
  import GeometricBrownian
  import SymmetricQuoting
  import AvellanedaStoikov
  import AvellanedaStoikovAbm
  import AvellanadaStoikovGbm
  import PoissonExecutionAbm
  import AsymPoissonExecution

  /** The per-step pricing strategies. */
  datatype PricingStrategy =
    | Symmetric(symmetric: SymmetricQuoting.SymmetricStrategy)
    | Avellaneda(avellaneda: AvellanedaStoikov.AvellanedaStoikovStrategy)
    | AvellanedaAbm(abm: AvellanedaStoikovAbm.AvellanedaStoikovStrategyAbm)
    | AvellanedaGbm(gbm: AvellanadaStoikovGbm.AvellanedaStoikovStrategyGBM)

  /** The per-step execution models; each consumes two uniform draws per step. */
  datatype OrderExecution =
    | PoissonAbm(poisson: PoissonExecutionAbm.PoissonExecutionForAbm)
    | AsymPoisson(asymPoisson: AsymPoissonExecution.AsymPoissonOrderExecution)

  /** A strategy the runner can quote with: non-zero γ and κ, so that its spread
      formula does not divide by zero. */
  predicate Quotable(s: PricingStrategy)
  {
    match s
    case Symmetric(x) => x.gamma != 0.0 && x.k != 0.0
    case Avellaneda(x) => x.gamma != 0.0 && x.k != 0.0
    case AvellanedaAbm(x) => x.gamma != 0.0 && x.k != 0.0
    case AvellanedaGbm(x) => x.gamma != 0.0 && x.k != 0.0
  }

  /** `strategy.calculate_reservation_price(...)`: a flat book quotes around the
      mid-price itself. */
  function ReservationPrice(s: PricingStrategy, np: NumPy, price: real, inventory: int, timeRemaining: real): (r: real)
    ensures inventory == 0 ==> r == price
    ensures s.Symmetric? ==> r == price
  {
    match s
    case Symmetric(x) => SymmetricQuoting.CalculateReservationPrice(x, price, inventory, timeRemaining)
    case Avellaneda(x) => AvellanedaStoikov.CalculateReservationPrice(x, price, inventory, timeRemaining)
    case AvellanedaAbm(x) => AvellanedaStoikovAbm.CalculateReservationPrice(x, price, inventory, timeRemaining)
    case AvellanedaGbm(x) => AvellanadaStoikovGbm.CalculateReservationPrice(x, np, price, inventory, timeRemaining)
  }

  /** `strategy.calculate_spread(...)`: (bid spread, ask spread), two equal
      half-spreads, or the `ZeroDivisionError` of γ = 0 or κ = 0. */
  function Spread(s: PricingStrategy, np: NumPy, price: real, inventory: int, timeRemaining: real): (r: Result<(real, real)>)
    ensures r.Success? <==> Quotable(s)
    ensures r.Failure? ==> r.error == ZeroDivisionError
    ensures r.Success? ==> r.value.0 == r.value.1
  {
    match s
    case Symmetric(x) => SymmetricQuoting.CalculateSpread(x, np, price, inventory, timeRemaining)
    case Avellaneda(x) => AvellanedaStoikov.CalculateSpread(x, np, price, inventory, timeRemaining)
    case AvellanedaAbm(x) => AvellanedaStoikovAbm.CalculateSpread(x, np, price, inventory, timeRemaining)
    case AvellanedaGbm(x) => AvellanadaStoikovGbm.CalculateSpread(x, np, price, inventory, timeRemaining)
  }

  /** `execution.execute_orders(...)`: the new (inventory, cash), at most one share
      bought and one sold. */
  function ExecuteOrders(e: OrderExecution, np: NumPy, bidPrice: real, askPrice: real,
                         inventory: int, cash: real, dt: real, draw1: real, draw2: real): (r: Position)
    ensures -1 <= r.inventory - inventory <= 1
  {
    match e
    case PoissonAbm(x) => PoissonExecutionAbm.ExecuteOrders(x, np, bidPrice, askPrice, inventory, cash, dt, draw1, draw2)
    case AsymPoisson(x) => AsymPoissonExecution.ExecuteOrders(x, np, bidPrice, askPrice, inventory, cash, dt, draw1, draw2)
  }

  /** What a run is set up with, besides the objects it changes. */
  datatype Setup = Setup(strategy: PricingStrategy, execution: OrderExecution, np: NumPy, dt: real, T: real)

  /** The seven values one step logs. */
  datatype Row = Row(mid: real, reservation: real, bid: real, ask: real, inventory: int, cash: real, wealth: real)

  /** The ledger and the logged columns: the state a run changes. */
  datatype RunState = RunState(ledger: Position, data: Logging.Columns)

  /** The stock columns and 'wealth'. */
  const AllKeys: set<string> := Logging.StockKeys + {"wealth"}

  /** The value a step logs under `key`. */
  function Entry(row: Row, key: string): real
  {
    if key == "mid_prices" then row.mid
    else if key == "reservation_prices" then row.reservation
    else if key == "bid_prices" then row.bid
    else if key == "ask_prices" then row.ask
    else if key == "inventory" then row.inventory as real
    else if key == "cash" then row.cash
    else row.wealth
  }

  /** The seven `log` calls of one step, in the order they are made. */
  function RowEntries(row: Row): seq<(string, real)>
  {
    [("mid_prices", row.mid), ("reservation_prices", row.reservation), ("bid_prices", row.bid),
     ("ask_prices", row.ask), ("inventory", row.inventory as real), ("cash", row.cash), ("wealth", row.wealth)]
  }

  /** The columns after a step's `log` calls, and whether they all returned. */
  function LogRow(data: Logging.Columns, row: Row): (r: (Logging.Columns, Outcome))
    ensures r.0.Keys == data.Keys
    ensures r.1.Fail? ==> r.1.error.KeyError? && r.1.error.key !in data
  {
    Logging.LoggedAll(data, RowEntries(row))
  }

  /** A step's `log` calls one after another, each made only if the ones before
      it returned. */
  lemma LogRowInOrder(data: Logging.Columns, row: Row)
    ensures LogRow(data, row)
            == Logging.LogAfter(Logging.LogAfter(Logging.LogAfter(Logging.LogAfter(Logging.LogAfter(Logging.LogAfter(Logging.LogAfter(
                 (data, Pass), "mid_prices", row.mid), "reservation_prices", row.reservation), "bid_prices", row.bid),
                 "ask_prices", row.ask), "inventory", row.inventory as real), "cash", row.cash), "wealth", row.wealth)
  {
    var e := RowEntries(row);
    assert e[..0] == [];
    Logging.LoggedAllPrefixStep(data, e, 0);
    Logging.LoggedAllPrefixStep(data, e, 1);
    Logging.LoggedAllPrefixStep(data, e, 2);
    Logging.LoggedAllPrefixStep(data, e, 3);
    Logging.LoggedAllPrefixStep(data, e, 4);
    Logging.LoggedAllPrefixStep(data, e, 5);
    Logging.LoggedAllPrefixStep(data, e, 6);
    assert e[..7] == e;
  }

  /** The ledger's cash plus its inventory marked at the given price. */
  function Wealth(p: Position, price: real): real
  {
    p.cash + p.inventory as real * price
  }

  /** The values step i computes from the position p it starts with, or the error
      its quote raises. */
  function StepRow(c: Setup, mid: seq<real>, draws: seq<(real, real)>, i: nat, p: Position): (r: Result<Row>)
    requires i < |mid| && i < |draws|
    ensures r.Success? <==> Quotable(c.strategy)
    ensures r.Failure? ==> r.error == ZeroDivisionError
    ensures r.Success? ==> r.value.mid == mid[i] && -1 <= r.value.inventory - p.inventory <= 1
    ensures r.Success? ==> r.value.ask - r.value.reservation == r.value.reservation - r.value.bid
  {
    var timeRemaining := c.T - Elapsed(c.dt, i);
    var reservation := ReservationPrice(c.strategy, c.np, mid[i], p.inventory, timeRemaining);
    match Spread(c.strategy, c.np, mid[i], p.inventory, timeRemaining)
    case Failure(e) => Failure(e)
    case Success(spreads) =>
      var bid := reservation - spreads.0;
      var ask := reservation + spreads.1;
      var next := ExecuteOrders(c.execution, c.np, bid, ask, p.inventory, p.cash, c.dt, draws[i].0, draws[i].1);
      var ledger := Ledger.Updated(p, next.inventory - p.inventory, next.cash - p.cash);
      Success(Row(mid[i], reservation, bid, ask, ledger.inventory, ledger.cash, Wealth(ledger, mid[i])))
  }

  /** One iteration of the loop: a failed quote changes nothing; otherwise the
      ledger moves to the step's position and the row is logged. */
  function Step(c: Setup, mid: seq<real>, draws: seq<(real, real)>, i: nat, s: RunState): (r: (Outcome, RunState))
    requires i < |mid| && i < |draws|
    ensures r.1.data.Keys == s.data.Keys
    ensures -1 <= r.1.ledger.inventory - s.ledger.inventory <= 1
    ensures !Quotable(c.strategy) ==> r == (Fail(ZeroDivisionError), s)
    ensures s.data.Keys == AllKeys && Quotable(c.strategy) ==>
              r.0 == Pass && forall k :: k in s.data ==> |r.1.data[k]| == |s.data[k]| + 1
  {
    match StepRow(c, mid, draws, i, s.ledger)
    case Failure(e) => (Fail(e), s)
    case Success(row) =>
      var logged := LogRow(s.data, row);
      LogRowAllKeys(s.data, row);
      (logged.1, RunState(Position(row.inventory, row.cash), logged.0))
  }

  /** Iterations i … n − 1 from state s: an iteration that raises ends the run
      with its outcome and state, and later ones never run. */
  function Steps(c: Setup, mid: seq<real>, draws: seq<(real, real)>, s: RunState, i: nat, n: nat): (r: (Outcome, RunState))
    requires i <= n <= |mid| && n <= |draws|
    ensures r.1.data.Keys == s.data.Keys
    ensures -(n - i) <= r.1.ledger.inventory - s.ledger.inventory <= n - i
    ensures i < n && !Quotable(c.strategy) ==> r == (Fail(ZeroDivisionError), s)
    ensures s.data.Keys == AllKeys && Quotable(c.strategy) ==>
              r.0 == Pass && forall k :: k in s.data ==> |r.1.data[k]| == |s.data[k]| + (n - i)
    decreases n - i
  {
    if i == n then (Pass, s)
    else
      var r := Step(c, mid, draws, i, s);
      if r.0.Fail? then r else Steps(c, mid, draws, r.1, i + 1, n)
  }

  /** Step i quotes from the inventory held before it, at time remaining
      T − i·dt and price mid[i]: bid = R − bid spread and ask = R + ask spread. After
      it the ledger holds exactly the pair `execute_orders` returned for those
      quotes and the position it started with, and the wealth is that cash plus that
      inventory marked at mid[i]. The step gets that far iff the spread call
      returns. */
  lemma StepQuotesAndFills(c: Setup, mid: seq<real>, draws: seq<(real, real)>, i: nat, p: Position)
    requires i < |mid| && i < |draws|
    ensures StepRow(c, mid, draws, i, p).Success? <==> Quotable(c.strategy)
    ensures var r := StepRow(c, mid, draws, i, p);
            var timeRemaining := c.T - Elapsed(c.dt, i);
            r.Success? ==>
              var reservation := ReservationPrice(c.strategy, c.np, mid[i], p.inventory, timeRemaining);
              var spreads := Spread(c.strategy, c.np, mid[i], p.inventory, timeRemaining).value;
              && r.value.mid == mid[i]
              && r.value.reservation == reservation
              && r.value.bid == reservation - spreads.0
              && r.value.ask == reservation + spreads.1
              && Position(r.value.inventory, r.value.cash)
                 == ExecuteOrders(c.execution, c.np, r.value.bid, r.value.ask, p.inventory, p.cash, c.dt, draws[i].0, draws[i].1)
              && r.value.wealth == Wealth(Position(r.value.inventory, r.value.cash), mid[i])
  {
    var timeRemaining := c.T - Elapsed(c.dt, i);
    var spreads := Spread(c.strategy, c.np, mid[i], p.inventory, timeRemaining);
    if spreads.Success? {
      var reservation := ReservationPrice(c.strategy, c.np, mid[i], p.inventory, timeRemaining);
      var bid, ask := reservation - spreads.value.0, reservation + spreads.value.1;
      var next := ExecuteOrders(c.execution, c.np, bid, ask, p.inventory, p.cash, c.dt, draws[i].0, draws[i].1);
      assert Ledger.Updated(p, next.inventory - p.inventory, next.cash - p.cash) == next;
    }
  }

  /** Iteration i runs first; the rest run only if it returned. */
  lemma StepsFirst(c: Setup, mid: seq<real>, draws: seq<(real, real)>, s: RunState, i: nat, n: nat, result: (Outcome, RunState))
    requires i < n <= |mid| && n <= |draws|
    requires result == Step(c, mid, draws, i, s)
    ensures Steps(c, mid, draws, s, i, n) == if result.0.Fail? then result else Steps(c, mid, draws, result.1, i + 1, n)
  {
  }

  /** With the stock logger, the seventh call raises `KeyError('wealth')`: the six
      stock columns have each taken this step's value and 'wealth' is not
      created. */
  lemma LogRowStockLogger(data: Logging.Columns, row: Row)
    requires data.Keys == Logging.StockKeys
    ensures LogRow(data, row).1 == Fail(KeyError("wealth"))
    ensures LogRow(data, row).0.Keys == Logging.StockKeys
    ensures forall k :: k in data ==> LogRow(data, row).0[k] == data[k] + [Entry(row, k)]
  {
    LogRowInOrder(data, row);
  }

  /** With all seven columns present, every call returns and each column takes
      exactly this step's value for it. */
  lemma LogRowAllKeys(data: Logging.Columns, row: Row)
    ensures data.Keys == AllKeys ==>
              && LogRow(data, row).1 == Pass
              && LogRow(data, row).0.Keys == AllKeys
              && forall k :: k in data ==> LogRow(data, row).0[k] == data[k] + [Entry(row, k)]
  {
    if data.Keys == AllKeys {
      LogRowInOrder(data, row);
    }
  }

  /** With the stock logger and a strategy that can quote, a run of any length
      stops in its first iteration with `KeyError('wealth')`, after the first step's
      fills have reached the ledger and six of its values have been logged. */
  lemma StockLoggerStopsAtWealth(c: Setup, mid: seq<real>, draws: seq<(real, real)>, s: RunState, n: nat)
    requires 1 <= n <= |mid| && n <= |draws|
    requires s.data.Keys == Logging.StockKeys && Quotable(c.strategy)
    ensures Steps(c, mid, draws, s, 0, n) == Step(c, mid, draws, 0, s)
    ensures StepRow(c, mid, draws, 0, s.ledger).Success?
    ensures var r := Step(c, mid, draws, 0, s);
            var row := StepRow(c, mid, draws, 0, s.ledger).value;
            && r.0 == Fail(KeyError("wealth"))
            && r.1.data.Keys == Logging.StockKeys
            && r.1.ledger == Position(row.inventory, row.cash)
            && forall k :: k in s.data ==> r.1.data[k] == s.data[k] + [Entry(row, k)]
  {
    StepQuotesAndFills(c, mid, draws, 0, s.ledger);
    LogRowStockLogger(s.data, StepRow(c, mid, draws, 0, s.ledger).value);
    StepsFirst(c, mid, draws, s, 0, n, Step(c, mid, draws, 0, s));
  }


  /** With all seven columns present and a strategy that can quote, one iteration
      returns, keeps the key set, and logs one value into column k. */
  lemma StepAllKeys(c: Setup, mid: seq<real>, draws: seq<(real, real)>, i: nat, s: RunState, k: string)
    requires i < |mid| && i < |draws|
    requires s.data.Keys == AllKeys && Quotable(c.strategy) && k in AllKeys
    ensures Step(c, mid, draws, i, s).0 == Pass
    ensures Step(c, mid, draws, i, s).1.data.Keys == AllKeys
    ensures |Step(c, mid, draws, i, s).1.data[k]| == |s.data[k]| + 1
  {
    StepQuotesAndFills(c, mid, draws, i, s.ledger);
    LogRowAllKeys(s.data, StepRow(c, mid, draws, i, s.ledger).value);
  }

  /** With all seven columns present and a strategy that can quote, iterations
      i … n − 1 all return, the key set never changes, and every column grows by
      exactly one entry per iteration. */
  lemma AllKeysLoggerGrows(c: Setup, mid: seq<real>, draws: seq<(real, real)>, s: RunState, i: nat, n: nat)
    requires i <= n <= |mid| && n <= |draws|
    requires s.data.Keys == AllKeys && Quotable(c.strategy)
    ensures Steps(c, mid, draws, s, i, n).0 == Pass
    ensures Steps(c, mid, draws, s, i, n).1.data.Keys == AllKeys
    ensures forall k :: k in s.data ==> |Steps(c, mid, draws, s, i, n).1.data[k]| == |s.data[k]| + (n - i)
  {
  }

  /** With dt > 0 every iteration the runner makes has at least dt of the horizon
      left: i < ⌊T/dt⌋ gives T − i·dt ≥ dt. */
  lemma TimeRemainingAtLeastDt(T: real, dt: real, i: nat)
    requires dt > 0.0 && i < Trunc(T / dt)
    ensures T - Elapsed(dt, i) >= dt
  {
    assert T / dt >= 0.0;
    assert (i + 1) as real <= T / dt;
    assert (i + 1) as real * dt <= (T / dt) * dt;
    assert (T / dt) * dt == T;
  }

  class SimulationRunner {
    const market: GeometricBrownian.GeometricBrownianMotion
    const strategy: PricingStrategy
    const execution: OrderExecution
    const inventory: Ledger.InventoryManager
    const logger: Logging.DataLogger
    const dt: real
    const T: real
    const steps: int

    /** The step count is `int(T / dt)`, fixed here; `T / dt` raises for dt = 0. */
    constructor(market: GeometricBrownian.GeometricBrownianMotion, strategy: PricingStrategy,
                execution: OrderExecution, inventory: Ledger.InventoryManager,
                logger: Logging.DataLogger, dt: real, T: real)
      requires dt != 0.0
      ensures this.market == market && this.strategy == strategy && this.execution == execution
      ensures this.inventory == inventory && this.logger == logger && this.dt == dt && this.T == T
      ensures steps == Trunc(T / dt)
    {
      this.market := market;
      this.strategy := strategy;
      this.execution := execution;
      this.inventory := inventory;
      this.logger := logger;
      this.dt := dt;
      this.T := T;
      steps := Trunc(T / dt);
    }

    /** The path `simulate(steps)` returns for the draws z. */
    function MidPrices(np: NumPy, z: seq<real>): (p: seq<real>)
      requires steps >= 1 && |z| == steps
      ensures |p| == steps + 1
    {
      GeometricBrownian.Compounded(market.S0, GeometricBrownian.Growths(np, market.sigma, 1.0 / steps as real, z), steps)
    }

    /** The strategy's and the execution model's methods, and the run's timing. */
    function Wiring(np: NumPy): Setup
    {
      Setup(strategy, execution, np, dt, T)
    }

    /** `logger.log(key, value)`, made only when no earlier call of the step has
        raised. */
    method LogUnlessRaised(prior: Outcome, key: string, value: real) returns (out: Outcome)
      modifies logger
      ensures (logger.data, out) == Logging.LogAfter((old(logger.data), prior), key, value)
    {
      out := prior;
      if prior.Pass? {
        out := logger.Log(key, value);
      }
    }

    /** The seven `log` calls of one step. A call that raises ends the step, so
        each later call is made only if every earlier one returned. */
    method LogStep(mid: real, reservation: real, bid: real, ask: real, inventoryLevel: int, cash: real, wealth: real)
      returns (out: Outcome)
      modifies logger
      ensures (logger.data, out) == LogRow(old(logger.data), Row(mid, reservation, bid, ask, inventoryLevel, cash, wealth))
    {
      LogRowInOrder(logger.data, Row(mid, reservation, bid, ask, inventoryLevel, cash, wealth));
      out := LogUnlessRaised(Pass, "mid_prices", mid);
      out := LogUnlessRaised(out, "reservation_prices", reservation);
      out := LogUnlessRaised(out, "bid_prices", bid);
      out := LogUnlessRaised(out, "ask_prices", ask);
      out := LogUnlessRaised(out, "inventory", inventoryLevel as real);
      out := LogUnlessRaised(out, "cash", cash);
      out := LogUnlessRaised(out, "wealth", wealth);
    }

    /** The quoting and execution part of iteration i from the position held before
        it: time remaining T − i·dt, the reservation price and the spreads of the
        strategy, bid = R − bid spread and ask = R + ask spread, and the pair the
        execution returns for those quotes. A strategy that raises raises here. */
    method QuoteStep(np: NumPy, mid: seq<real>, draws: seq<(real, real)>, i: nat, p: Position) returns (r: Result<Row>)
      requires i < |mid| && i < |draws|
      ensures r == StepRow(Wiring(np), mid, draws, i, p)
    {
      var step, horizon := dt, T;
      var t := Elapsed(step, i);
      var timeRemaining := horizon - t;
      var currentPrice := mid[i];
      var reservationPrice := ReservationPrice(strategy, np, currentPrice, p.inventory, timeRemaining);
      var spreads := Spread(strategy, np, currentPrice, p.inventory, timeRemaining);
      if spreads.Failure? {
        return Failure(spreads.error);
      }
      var bidPrice := reservationPrice - spreads.value.0;
      var askPrice := reservationPrice + spreads.value.1;
      var next := ExecuteOrders(execution, np, bidPrice, askPrice, p.inventory, p.cash, step, draws[i].0, draws[i].1);
      assert Ledger.Updated(p, next.inventory - p.inventory, next.cash - p.cash) == next;
      return Success(Row(currentPrice, reservationPrice, bidPrice, askPrice, next.inventory, next.cash, Wealth(next, currentPrice)));
    }

    /** One iteration of `run`'s loop at index i, on the simulated path: quote and
        execute, move the ledger by the fill, then log the row. */
    method RunStep(np: NumPy, mid: seq<real>, draws: seq<(real, real)>, i: nat) returns (out: Outcome)
      requires i < |mid| && i < |draws|
      modifies inventory, logger
      ensures (out, RunState(inventory.State(), logger.data))
              == Step(Wiring(np), mid, draws, i, RunState(old(inventory.State()), old(logger.data)))
    {
      var inventoryLevel := inventory.inventory;
      var cash := inventory.cash;
      var quoted := QuoteStep(np, mid, draws, i, Position(inventoryLevel, cash));
      if quoted.Failure? {
        return Fail(quoted.error);
      }
      var row := quoted.value;
      inventory.Update(row.inventory - inventoryLevel, row.cash - cash);
      var wealth := Wealth(inventory.State(), row.mid);
      out := LogStep(row.mid, row.reservation, row.bid, row.ask, inventory.inventory, inventory.cash, wealth);
    }

    /** The loop of `run()` over the first n prices of the simulated path,
        stopping at the first iteration that raises. */
    method Iterate(np: NumPy, mid: seq<real>, draws: seq<(real, real)>, n: nat) returns (r: Outcome)
      requires n <= |mid| && n <= |draws|
      modifies inventory, logger
      ensures (r, RunState(inventory.State(), logger.data))
              == Steps(Wiring(np), mid, draws, RunState(old(inventory.State()), old(logger.data)), 0, n)
    {
      ghost var c := Wiring(np);
      ghost var run := Steps(c, mid, draws, RunState(inventory.State(), logger.data), 0, n);
      for i := 0 to n
        invariant run == Steps(c, mid, draws, RunState(inventory.State(), logger.data), i, n)
      {
        ghost var before := RunState(inventory.State(), logger.data);
        r := RunStep(np, mid, draws, i);
        StepsFirst(c, mid, draws, before, i, n, (r, RunState(inventory.State(), logger.data)));
        if r.Fail? {
          return;
        }
      }
      return Pass;
    }

    /** `run()`: simulate once, then iterate i = 0 … steps − 1 until an iteration
        raises. The outcome, ledger and columns are those of `Steps` on the
        simulated path; a step count below one makes `simulate` raise before
        anything changes. */
    method Run(np: NumPy, z: seq<real>, draws: seq<(real, real)>) returns (r: Outcome)
      requires steps >= 1 ==> |z| == steps && |draws| >= steps
      modifies inventory, logger
      ensures steps < 1 ==> r == Fail(PathSizeError(steps))
      ensures steps < 1 ==> inventory.State() == old(inventory.State()) && logger.data == old(logger.data)
      ensures steps >= 1 ==>
                (r, RunState(inventory.State(), logger.data))
                == Steps(Wiring(np), MidPrices(np, z), draws, RunState(old(inventory.State()), old(logger.data)), 0, steps)
    {
      var simulated := market.Simulate(np, steps, z);
      if simulated.Failure? {
        return Fail(simulated.error);
      }
      r := Iterate(np, simulated.value[..], draws, steps);
    }
  }
}
