# Avellaneda–Stoikov market-making simulator: a verified model

This project models the core of a Python simulator for a market maker that quotes
a bid and an ask around a *reservation price* in the way Avellaneda and Stoikov
describe. The simulator moves a mid-price along a random path (arithmetic or
geometric Brownian motion). A pricing strategy turns the mid-price, the signed
inventory and the time left into a reservation price and two half-spreads. An
execution model decides, with a uniform draw per side, whether the bid is hit
and whether the ask is lifted. The position ledger records the change to
inventory and cash, and a data logger appends each step's values to named
columns. A step runner ties these together for every step of the horizon.

The Dafny model has one module per source file:

- `Ledger` — `InventoryManager`
- `Logging` — `DataLogger`
- `SimulationRunner`
- five per-step strategies:
  - `SymmetricQuoting`
  - `AvellanedaStoikov`
  - `AvellanedaStoikovAbm`
  - `AvellanadaStoikovGbm`
  - `AsymmetricAvellaneda`
- three whole-array strategies that fill length-T arrays, using elapsed time:
  - `AvellanedaStoikovForAbm`
  - `AvellanedaStoikovForGbm`
  - `AvellanedaStoikovGbm`
- two per-step execution models:
  - `PoissonExecutionAbm`
  - `AsymPoissonExecution`
- five whole-horizon execution loops:
  - `PoissonExecutionForAbm`
  - `PoissonExecutionForGbm`
  - `AssymPoissonExecution`
  - `PoissonExecution`
  - `PoissonExecutionForPaths`
- three price simulators:
  - `ArithmeticBrownian`
  - `GeometricBrownian`
  - `GeometricBrowian`

Three shared modules support them:

- `Common` — errors, `Result`, `Position`, and numpy's elementary functions.
- `Reference` — the closed-form Avellaneda–Stoikov formulas, stated once. Every strategy is proved against them.
- `Fills` — the shared fill rule, the whole-horizon ledger and its counting lemmas.

How the source's features are represented:

- **Numbers.** Prices, cash and parameters are `real`, and inventory is `int`.
- **`exp`, `log`, `sqrt`.** These are uninterpreted fields of a `NumPy` value passed to every operation that uses them. Only `e^x > 0` and `e^0 = 1` are assumed (`Common.ExpLaws`), and only where a lemma needs them.
- **Random draws.** Every `np.random.rand()` and `np.random.normal()` draw is an input sequence, consumed in the order the source consumes it.
- **Exceptions.** A Python exception becomes a `Failure` or `Fail` carrying the exception's kind.
- **Mutable objects.** Objects whose fields the source updates in place are classes:
  - the ledger;
  - the logger;
  - the runner;
  - the whole-horizon executions;
  - the whole-array strategies, whose arrays are Dafny arrays;
  - the simulators, which fill an `array<real>` in a loop.
- **Pure objects.** Objects that only compute are datatypes with functions.
- **Strategy and execution interfaces.** The runner's interfaces are tagged unions of the per-step variants.

Where the design description and the code disagree, the model follows the code:

- The seeded simulator's growth factor has `+½σ²dt`, not `−½σ²dt`, and its draws already carry the `√dt`.
- The per-step asymmetric execution uses `|bid_price|` and `|ask_price|` as its distances, not the half-spreads.
- The per-step symmetric execution uses the full quoted spread `ask − bid` as its distance.
- The runner logs a `'wealth'` column that the logger never creates, so with the stock logger the first step raises `KeyError`.
- The asymmetric strategy names its method `calculate_spreads` and so leaves the abstract `calculate_spread` of `src/core/pricing_strategy.py:10-13` unimplemented. Python therefore refuses to construct it (`TypeError`), no runner can hold one, and the runner's strategy union has only the four other per-step strategies.
- The whole-array strategies use the elapsed time `t = i·dt`, not the time remaining.
- Invalid parameters are not rejected up front. γ = 0 or κ = 0 raises `ZeroDivisionError` where the spread formula divides. A step count below one raises inside `simulate`.

## Model

| member | source | states |
|---|---|---|
| Ledger.InventoryManager.constructor | src/core/inventory_manager.py:3-5 | cash and inventory start at the given initial values |
| Ledger.InventoryManager.Update | src/core/inventory_manager.py:7-9 | inventory and cash each move by exactly the signed delta given; there is no bound, so either may go negative |
| Ledger.Updated | src/core/inventory_manager.py:7-9 | the position moves by exactly the two deltas, and subtracting them again restores it |
| Ledger.UpdatedAll | src/core/inventory_manager.py:7-9 | a run of updates whose inventory deltas are all non-negative never lowers the inventory, and likewise for cash |
| Ledger.UpdatesCommuteAndCombine | src/core/inventory_manager.py:7-9 | two successive updates equal one update by the summed deltas, and equal the same two in the other order |
| Ledger.ZeroUpdateIsIdentity | src/core/inventory_manager.py:7-9 | `update(0, 0)` leaves the position unchanged |
| Ledger.UpdatedAllIsTotal | src/core/inventory_manager.py:7-9 | any run of updates lands where one update by the total deltas lands |
| Ledger.UpdatedAllConcat | src/core/inventory_manager.py:7-9 | a run of updates split anywhere composes from its two halves |
| Ledger.UpdatedAllOrderFree | src/core/inventory_manager.py:7-9 | two runs of updates applied in either order give the same position |
| Logging.DataLogger.constructor | src/core/data_logger.py:4-12 | a new logger has exactly the six stock columns, each empty |
| Logging.Logged | src/core/data_logger.py:14-15 | `log(k, v)` succeeds iff k is a column. It then appends v to the end of column k only, with the same key set. Otherwise it raises `KeyError(k)` |
| Logging.DataLogger.Log | src/core/data_logger.py:14-15 | the logger's columns become those of `Logged`; a missing key leaves every column as it was and creates nothing |
| Logging.LoggedAll | src/core/data_logger.py:14-15 | a run of `log` calls never changes the key set, and the only error it can raise is `KeyError` for a key the logger lacks |
| Logging.LoggedAllPasses | src/core/data_logger.py:14-15 | a run of `log` calls under present keys all return and keep the key set |
| Logging.LoggedAllColumn | src/core/data_logger.py:14-15 | after such a run, a column is its old contents followed by exactly the values logged under it, in logging order |
| Logging.LoggedAllAppendsInOrder | src/core/data_logger.py:15 | the same for every column at once: append-only, in logging order, with other columns untouched |
| Logging.LoggedAllStopsAtMissingKey | src/core/data_logger.py:14-15 | a run of calls that reaches an absent key raises `KeyError` for it and keeps what the earlier calls appended. The absent key is not created |
| Logging.LoggedAllSnoc | src/core/data_logger.py:14-15 | one more `log` call after a run is made only if the run did not raise |
| Logging.ValuesForConcat | src/core/data_logger.py:15 | the values logged under a key by two consecutive runs are those of the first run, then the second |
| Common.Trunc | src/core/simulation_runner.py:21 | Python's `int(x)` truncates toward zero: the result is the integer between 0 and x that lies within 1 of x |
| SimulationRunner.SimulationRunner.constructor | src/core/simulation_runner.py:13-21 | the collaborators, `dt` and `T` are stored, and `steps = int(T / dt)` is fixed once |
| SimulationRunner.SimulationRunner.MidPrices | src/core/simulation_runner.py:26 | the path `simulate(steps)` produces has steps + 1 prices |
| SimulationRunner.ReservationPrice | src/core/simulation_runner.py:38-42 | the strategy's reservation price; a flat book, and the symmetric strategy always, quote around the mid-price |
| SimulationRunner.Spread | src/core/simulation_runner.py:44-48 | `calculate_spread` returns iff γ and κ are non-zero, and then gives two equal half-spreads; otherwise it raises `ZeroDivisionError` |
| SimulationRunner.ExecuteOrders | src/core/simulation_runner.py:56-62 | any execution model moves the inventory by at most one share per step |
| SimulationRunner.SimulationRunner.QuoteStep | src/core/simulation_runner.py:29-62 | iteration i's quote and fill equal `StepRow`, the step specification that `StepQuotesAndFills` characterises |
| SimulationRunner.StepRow | src/core/simulation_runner.py:30-68 | the step's values exist iff γ and κ are non-zero (otherwise `ZeroDivisionError`); the logged mid is mid[i], the inventory moves by at most one, and bid and ask sit symmetrically about the reservation price |
| SimulationRunner.StepQuotesAndFills | src/core/simulation_runner.py:30-68 | step i quotes at time remaining T − i·dt and price mid[i], from the inventory held before the step. bid = R − bid spread and ask = R + ask spread. The ledger then holds exactly the pair `execute_orders` returned, and wealth = that cash + that inventory · mid[i]. The step gets that far iff the spread call returns |
| SimulationRunner.LogRow | src/core/simulation_runner.py:71-78 | a step's seven `log` calls keep the key set; if one raises, it is `KeyError` for a column the logger lacks |
| SimulationRunner.LogRowInOrder | src/core/simulation_runner.py:71-78 | a step's seven `log` calls run in source order, each only if the earlier ones returned |
| SimulationRunner.SimulationRunner.LogStep | src/core/simulation_runner.py:71-78 | the logger's columns and the outcome after the seven calls are those of the seven-call run |
| SimulationRunner.SimulationRunner.LogUnlessRaised | src/core/simulation_runner.py:71-78 | one `log` call that is made only if no earlier call of the step raised |
| SimulationRunner.LogRowStockLogger | src/core/simulation_runner.py:71-78 | with the stock logger, each of the six stock columns takes this step's value; then `log('wealth')` raises `KeyError` and creates nothing |
| SimulationRunner.LogRowAllKeys | src/core/simulation_runner.py:71-78 | with all seven columns present, every call returns and each column takes exactly this step's value |
| SimulationRunner.SimulationRunner.RunStep | src/core/simulation_runner.py:29-78 | one loop iteration changes the ledger and the logger exactly as `Step` says. A quote that raises changes neither |
| SimulationRunner.Step | src/core/simulation_runner.py:30-78 | one iteration keeps the key set and moves the inventory by at most one; with γ or κ zero it raises `ZeroDivisionError` and changes nothing; with all seven columns and a strategy that can quote it returns and adds one entry to every column |
| SimulationRunner.Steps | src/core/simulation_runner.py:29-78 | iterations i … n − 1 keep the key set and leave the inventory within n − i of where it was; with γ or κ zero the first iteration raises `ZeroDivisionError` and nothing changes; with all seven columns and a strategy that can quote, every iteration returns and each column gains n − i entries, proved by induction over the iterations |
| SimulationRunner.StepsFirst | src/core/simulation_runner.py:29-78 | iteration i runs first, and the later iterations run only if it returned |
| SimulationRunner.SimulationRunner.Iterate | src/core/simulation_runner.py:29-78 | the loop, stopped at the first iteration that raises, leaves the ledger, columns and outcome of `Steps` |
| SimulationRunner.SimulationRunner.Run | src/core/simulation_runner.py:23-78 | `run()` simulates once, then loops. With steps < 1, `simulate` raises before anything changes. Otherwise the result is `Steps` over the simulated path's first `steps` prices |
| SimulationRunner.StockLoggerStopsAtWealth | src/core/simulation_runner.py:71-78 | with the stock logger and a quotable strategy, every run stops in iteration 0 with `KeyError('wealth')`. That step's fill has reached the ledger and six of its values are logged |
| SimulationRunner.StepAllKeys | src/core/simulation_runner.py:71-78 | with all seven columns present, one iteration returns, keeps the key set and adds one entry to a column |
| SimulationRunner.AllKeysLoggerGrows | src/core/simulation_runner.py:29-78 | with all seven columns, k completed iterations leave every column k entries longer and the key set unchanged |
| SimulationRunner.TimeRemainingAtLeastDt | src/core/simulation_runner.py:29-31 | with dt > 0, every iteration i < int(T/dt) has at least dt of the horizon left |
| Reference.ReservationIsMidWithoutSkew | src/strategies/avellaneda_stoikov.py:13-14 | a flat book (q = 0) or no risk left gives R = S |
| Reference.ReservationStrictlyDecreasing | src/strategies/avellaneda_stoikov.py:13-14 | with positive risk, R falls strictly as q grows |
| Reference.InventoryRiskVanishesAtZero | src/strategies/avellaneda_stoikov.py:14 | γσ²τ is 0 at τ = 0 |
| Reference.InventoryRiskMonotone | src/strategies/avellaneda_stoikov_for_abm.py:68 | with γ > 0, γσ²τ never decreases in τ |
| Reference.GbmInventoryRiskVanishesAtZero | src/strategies/avellanada_stoikov_gbm.py:20-21 | given e^0 = 1, γS²(1 − e^(−σ²τ)) is 0 at τ = 0 |
| AvellanedaStoikov.CalculateReservationPrice | src/strategies/avellaneda_stoikov.py:13-14 | R = S − q·γσ²τ (the reference reservation price); q = 0 or τ = 0 gives R = S |
| AvellanedaStoikov.CalculateSpread | src/strategies/avellaneda_stoikov.py:16-18 | raises `ZeroDivisionError` iff γ = 0 or κ = 0. Otherwise the two half-spreads are equal and sum to the full spread γσ²τ + (2/γ)·ln(1 + γ/κ) |
| AvellanedaStoikov.ReservationFallsWithInventory | src/strategies/avellaneda_stoikov.py:14 | with γσ²τ > 0, a longer inventory quotes a strictly lower reservation price |
| AvellanedaStoikov.SpreadIgnoresPriceAndInventory | src/strategies/avellaneda_stoikov.py:16-18 | the spread depends on neither S nor q |
| AvellanedaStoikovAbm.CalculateReservationPrice | src/strategies/avellaneda_stoikov_abm.py:17-18 | R = S − q·γσ²τ; q = 0 gives R = S for every τ |
| AvellanedaStoikovAbm.CalculateSpread | src/strategies/avellaneda_stoikov_abm.py:20-23 | raises iff γ = 0 or κ = 0. Otherwise it gives equal half-spreads summing to the full spread |
| AvellanedaStoikovAbm.SpreadIgnoresPriceAndInventory | src/strategies/avellaneda_stoikov_abm.py:20-23 | the spread depends on neither S nor q |
| AvellanedaStoikovAbm.AgreesWithAvellanedaStoikov | src/strategies/avellaneda_stoikov_abm.py:17-23 | this class quotes exactly as the one in src/strategies/avellaneda_stoikov.py |
| SymmetricQuoting.CalculateReservationPrice | src/strategies/symmetric_strategy.py:10-13 | R = S whatever q and τ |
| SymmetricQuoting.CalculateSpread | src/strategies/symmetric_strategy.py:15-18 | raises iff γ = 0 or κ = 0. Otherwise it gives equal half-spreads summing to the full spread |
| SymmetricQuoting.IgnoresInventory | src/strategies/symmetric_strategy.py:10-18 | neither output depends on the inventory |
| SymmetricQuoting.SpreadMatchesAvellanedaStoikov | src/strategies/symmetric_strategy.py:17 | the baseline's spread equals the inventory-aware strategy's spread for the same arguments |
| AsymmetricAvellaneda.CalculateReservationPrice | src/strategies/asymmetric_avellaneda.py:11-15 | R = S − q·γσ²τ; q = 0 gives R = S |
| AsymmetricAvellaneda.CalculateSpreads | src/strategies/asymmetric_avellaneda.py:17-31 | raises iff γ = 0 or κ = 0. Otherwise δ_bid + δ_ask = γσ²τ + (2/γ)·ln(1 + γ/κ) for every q, and δ_bid − δ_ask = 2q·γσ²τ |
| AsymmetricAvellaneda.FlatBookIsSymmetric | src/strategies/asymmetric_avellaneda.py:28-29 | q = 0 gives δ_bid = δ_ask = γσ²τ/2 + (1/γ)·ln(1 + γ/κ) |
| AsymmetricAvellaneda.SkewFollowsInventorySign | src/strategies/asymmetric_avellaneda.py:28-29 | with γσ²τ > 0, a long book quotes a wider bid than ask and a short book the reverse |
| AvellanadaStoikovGbm.CalculateReservationPrice | src/strategies/avellanada_stoikov_gbm.py:16-21 | R = S − q·γS²(1 − e^(−σ²τ)); q = 0 gives R = S |
| AvellanadaStoikovGbm.CalculateSpread | src/strategies/avellanada_stoikov_gbm.py:23-30 | raises iff γ = 0 or κ = 0. Otherwise equal half-spreads sum to γS²(1 − e^(−σ²τ)) + (2/γ)·ln(1 + γ/κ) |
| AvellanadaStoikovGbm.ReservationAtHorizonEnd | src/strategies/avellanada_stoikov_gbm.py:20-21 | τ = 0 gives R = S |
| AvellanadaStoikovGbm.SpreadAtHorizonEnd | src/strategies/avellanada_stoikov_gbm.py:27-30 | τ = 0 leaves each half-spread at (1/γ)·ln(1 + γ/κ) |
| AvellanadaStoikovGbm.SpreadIgnoresInventory | src/strategies/avellanada_stoikov_gbm.py:23-30 | the spread does not depend on q |
| AvellanedaStoikovForAbm.AvellanedaStoikovStrategyAbm.constructor | src/strategies/avellaneda_stoikov_for_abm.py:34-40 | γ, κ and σ are stored, q = inventory, T = the step count, dt = 1/T, and the simulated path is kept |
| AvellanedaStoikovForAbm.AvellanedaStoikovStrategyAbm.CalculateReservationPrice | src/strategies/avellaneda_stoikov_for_abm.py:42-55 | a length-T array with R[i] = S[i] − q·γσ²·t_i, where t_i = i·dt is the accumulated time. R[0] = S[0], and q = 0 gives R = S[0..T−1]. Only S[0..T−1] is read |
| AvellanedaStoikovForAbm.AvellanedaStoikovStrategyAbm.CalculateSpread | src/strategies/avellaneda_stoikov_for_abm.py:57-70 | raises iff γ = 0 or κ = 0. Otherwise a length-T array with h[i] = (γσ²t_i + (2/γ)·ln(1 + γ/κ))/2, non-decreasing in i when γ > 0 |
| AvellanedaStoikovForAbm.AvellanedaStoikovStrategyAbm.CalculateBidAsk | src/strategies/avellaneda_stoikov_for_abm.py:72-83 | bid[i] = R[i] − h[i] and ask[i] = R[i] + h[i], so ask − bid = 2h[i] (the full spread) and the midpoint is R[i] |
| AvellanedaStoikovForGbm.AvellanedaStoikovGBM.constructor | src/strategies/avellaneda_stoikov_for_gbm.py:31-37 | the parameters are stored, T = the step count, dt = 1/T, and the path is kept |
| AvellanedaStoikovForGbm.AvellanedaStoikovGBM.CalculateReservationPrice | src/strategies/avellaneda_stoikov_for_gbm.py:39-52 | a length-T array with R[i] = S[i] − q·γS[i]²(1 − e^(−σ²t_i)). R[0] = S[0] given e^0 = 1, and q = 0 gives R = S[0..T−1] |
| AvellanedaStoikovForGbm.AvellanedaStoikovGBM.CalculateSpread | src/strategies/avellaneda_stoikov_for_gbm.py:54-67 | raises iff γ = 0 or κ = 0. Otherwise a length-T array with h[i] = (γS[i]²(1 − e^(−σ²t_i)) + (2/γ)·ln(1 + γ/κ))/2 |
| AvellanedaStoikovForGbm.AvellanedaStoikovGBM.CalculateBidAsk | src/strategies/avellaneda_stoikov_for_gbm.py:69-80 | bid = R − h and ask = R + h element-wise: symmetric about R and 2h apart |
| AvellanedaStoikovGbm.AvellanedaStoikovGBM.constructor | src/strategies/avellaneda_stoikov_gbm.py:7-14 | the parameters are stored, T = the step count, dt = 1/T, and the path is kept |
| AvellanedaStoikovGbm.AvellanedaStoikovGBM.CalculateReservationPrice | src/strategies/avellaneda_stoikov_gbm.py:16-22 | a length-T array with R[i] = S[i] − q·γS[i]²(1 − e^(−σ²t_i)). R[0] = S[0] given e^0 = 1, and q = 0 gives R = S[0..T−1] |
| AvellanedaStoikovGbm.AvellanedaStoikovGBM.CalculateSpread | src/strategies/avellaneda_stoikov_gbm.py:24-30 | raises iff γ = 0 or κ = 0. Otherwise a length-T array with h[i] = (γS[i]²(1 − e^(−σ²t_i)) + (2/γ)·ln(1 + γ/κ))/2 |
| AvellanedaStoikovGbm.AvellanedaStoikovGBM.CalculateBidAsk | src/strategies/avellaneda_stoikov_gbm.py:32-35 | both arrays are recomputed for each side, but nothing they read changes, so bid = R − h and ask = R + h element-wise |
| Fills.Fill | src/executions/poisson_execution_abm.py:21-27 | no hit leaves the position unchanged; a bid hit alone buys one share at the bid, an ask hit alone sells one at the ask |
| Fills.Hit | src/executions/poisson_execution_abm.py:21 | a uniform draw in [0, 1) always hits when λ·dt ≥ 1, and a draw ≥ 0 never hits when λ·dt ≤ 0 |
| Fills.FillBounds | src/executions/poisson_execution_abm.py:21-27 | one step moves the inventory by at most one share and the cash by one of 0, −bid, +ask or ask − bid |
| Fills.RoundTrip | src/executions/poisson_execution_abm.py:21-27 | both sides filling leaves the inventory unchanged and adds ask − bid to the cash |
| Fills.Intensities | src/executions/poisson_execution_for_abm.py:49-50 | `A * np.exp(-k * spread)` element-wise: one intensity per half-spread |
| Fills.BidHits | src/executions/poisson_execution_for_abm.py:52-56 | step i's bid is hit iff its first draw is below λ[i]·dt |
| Fills.AskHits | src/executions/poisson_execution_for_abm.py:58-61 | step i's ask is lifted iff its second draw is below λ[i]·dt |
| Fills.Consecutive | src/executions/poisson_execution.py:24-25 | a loop that draws one uniform per step hits at step i iff draws[i] < λ[i]·dt |
| Fills.NoHits | src/executions/poisson_execution.py:24-27 | the ask side that the loop never checks is hit at no step |
| Fills.Count | src/executions/poisson_execution_for_abm.py:52-61 | the number of fills among the first n steps is at most n |
| Fills.Horizon | src/executions/poisson_execution_for_abm.py:52-61 | after n steps of the in-loop fill the inventory is within n of its start; with no ask fills it never falls, with no bid fills it never rises |
| Fills.HorizonLedger | src/executions/poisson_execution_for_abm.py:52-61 | after n steps, inventory = q₀ + #bid fills − #ask fills, so it is within n of q₀. Cash = cash₀ − Σ bid prices filled + Σ ask prices filled |
| Fills.HorizonFromStart | src/executions/poisson_execution_for_abm.py:41-63 | what a whole-horizon call adds does not depend on the position it starts from, so a second call adds to the first one's result |
| Fills.NoHitsContributeNothing | src/executions/poisson_execution.py:24-27 | a side that is never hit adds no fills and no cash |
| Fills.TrailingAsk | src/executions/poisson_execution.py:24-30 | the bid loop followed by one ask check leaves the inventory in [q₀ − 1, q₀ + n], and not below q₀ when the ask is not lifted |
| Fills.TrailingAskLedger | src/executions/poisson_execution.py:24-30 | with the ask checked once after the bid loop, inventory = q₀ + #bid fills − (1 if the last ask filled), so it lies in [q₀ − 1, q₀ + T]. Cash = cash₀ − Σ bid fills + at most ask[T − 1] |
| Fills.TrailingAskDiffersFromInLoop | src/executions/poisson_execution.py:24-30 | two steps whose quotes are all hit leave the in-loop version flat with cash +4, but the trailing-ask version long one share with cash −97 |
| PoissonExecutionAbm.ExecuteOrders | src/executions/poisson_execution_abm.py:9-29 | one intensity λ = A·e^(−k·(ask − bid)) serves both sides. The bid fills iff draw₁ < λ·dt (inventory + 1, cash − bid), then the ask iff draw₂ < λ·dt (inventory − 1, cash + ask). The net change is within ±1 |
| PoissonExecutionAbm.SaturatedIntensityFillsBoth | src/executions/poisson_execution_abm.py:21-27 | if λ·dt ≥ 1, draws in [0, 1) fill both sides: inventory unchanged, cash + (ask − bid) |
| PoissonExecutionAbm.StepOutcomes | src/executions/poisson_execution_abm.py:21-27 | the cash change is one of 0, −bid, +ask, ask − bid |
| AsymPoissonExecution.Abs | src/executions/asym_poisson_execution.py:56-57 | Python's `abs`: non-negative, and equal to x or −x |
| AsymPoissonExecution.ExecuteOrders | src/executions/asym_poisson_execution.py:34-73 | λ_bid = A_bid·e^(−k_bid·abs(bid)) and λ_ask = A_ask·e^(−k_ask·abs(ask)). A bid fill gives inventory + 1 and cash − bid; an ask fill gives inventory − 1 and cash + ask. The inventory change is in {−1, 0, 1} and the cash change in {0, −bid, +ask, ask − bid} |
| AsymPoissonExecution.StoredCashIsUnused | src/executions/asym_poisson_execution.py:24-32 | the cash stored by the constructor plays no part in `execute_orders` |
| AsymPoissonExecution.IntensityIgnoresSign | src/executions/asym_poisson_execution.py:56-61 | quoting −p gives the same intensity as quoting p on either side |
| PoissonExecutionForAbm.PoissonExecutionForAbm.constructor | src/executions/poisson_execution_for_abm.py:23-39 | copies dt, T, q, κ, the half-spread array h and the quotes R ∓ h from the strategy |
| PoissonExecutionForAbm.PoissonExecutionForAbm.ExecuteOrders | src/executions/poisson_execution_for_abm.py:41-63 | the new inventory and cash are the whole-horizon fill of the old ones: T steps, bid then ask, 2T draws, with λ_bid = λ_ask = A·e^(−κ·h[i]). It returns the new fields |
| PoissonExecutionForGbm.PoissonExecutionForGbm.constructor | src/executions/poisson_execution_for_gbm.py:23-39 | copies dt, T, q, κ, the geometric half-spreads h and the quotes R ∓ h from the strategy |
| PoissonExecutionForGbm.PoissonExecutionForGbm.ExecuteOrders | src/executions/poisson_execution_for_gbm.py:41-63 | the whole-horizon fill over T steps, bid then ask, with one shared intensity array. The returned pair equals the final fields |
| AssymPoissonExecution.AsymPoissonOrderExecution.constructor | src/executions/Assym_Poisson_Execution.py:27-60 | stores A_bid, A_ask, k_bid and k_ask, and copies dt, T, q, the half-spreads and the quotes from the strategy |
| AssymPoissonExecution.AsymPoissonOrderExecution.ExecuteOrders | src/executions/Assym_Poisson_Execution.py:62-84 | the whole-horizon fill with λ_bid[i] = A_bid·e^(−k_bid·h[i]) and λ_ask[i] = A_ask·e^(−k_ask·h[i]), both from the same half-spread. Bid then ask at each step, 2T draws |
| AssymPoissonExecution.AsymPoissonOrderExecution.SymmetricParametersGiveSymmetricLoop | src/executions/Assym_Poisson_Execution.py:71-72 | with A_bid = A_ask and k_bid = k_ask, both sides use the intensity array of a symmetric `PoissonExecutionForAbm` with the same A, k, half-spreads and quotes, so for the same draws and start the new state is the one that object's `execute_orders` reaches |
| PoissonExecution.PoissonOrderExecution.constructor | src/executions/poisson_execution.py:8-15 | copies dt, T, q, κ, the half-spreads and the quotes from its argument |
| PoissonExecution.PoissonOrderExecution.BidLoop | src/executions/poisson_execution.py:24-27 | the `for` loop checks only the bid, one draw per step: a whole-horizon fill whose ask is never hit |
| PoissonExecution.PoissonOrderExecution.ExecuteOrders | src/executions/poisson_execution.py:18-33 | T = 0 raises `UnboundLocalError` and changes nothing. Otherwise the bid loop runs, then one ask check at i = T − 1 with draw T (T + 1 draws in all), and the new fields are returned |
| PoissonExecutionForPaths.PoissonExecutionForPaths.constructor | src/executions/poisson_execution_for_paths.py:7-15 | copies dt, T, q, κ, the geometric half-spreads and the quotes from the strategy |
| PoissonExecutionForPaths.PoissonExecutionForPaths.BidLoop | src/executions/poisson_execution_for_paths.py:20-23 | the `for` loop checks only the bid, one draw per step |
| PoissonExecutionForPaths.PoissonExecutionForPaths.ExecuteOrders | src/executions/poisson_execution_for_paths.py:17-29 | T = 0 raises `UnboundLocalError`. Otherwise the bid loop runs, then one ask check with the last i, so at most one ask fills |
| ArithmeticBrownian.ArithmeticBrownianMotion.constructor | src/simulations/arithmetic_brownian.py:20-31 | S0, σ and the step count are stored |
| ArithmeticBrownian.Path | src/simulations/arithmetic_brownian.py:41-47 | the path has N + 1 prices and starts at S0 |
| ArithmeticBrownian.PathRecurrence | src/simulations/arithmetic_brownian.py:46-47 | S[i] = S[i − 1] + σ·√dt·Z[i − 1] |
| ArithmeticBrownian.PathClosedForm | src/simulations/arithmetic_brownian.py:46-47 | the path telescopes: S[N] = S0 + σ·√dt·(Z[0] + … + Z[N − 1]) |
| ArithmeticBrownian.PathConstantWithoutVolatility | src/simulations/arithmetic_brownian.py:47 | σ = 0 gives a constant path |
| ArithmeticBrownian.ArithmeticBrownianMotion.Simulate | src/simulations/arithmetic_brownian.py:33-49 | raises iff N < 1: `ZeroDivisionError` for 0, `IndexError` for −1, `ValueError` below. Otherwise it returns N + 1 prices starting at S0 that follow the recurrence with dt = 1/N |
| Common.PathSizeError | src/simulations/arithmetic_brownian.py:40-42 | which error a step count below one raises: `1 / 0`, `S[0]` on an empty array, or a negative `np.zeros` size |
| GeometricBrownian.GeometricBrownianMotion.constructor | src/simulations/geometric_brownian.py:15-25 | S0 and σ are stored, and the optional step count defaults to none |
| GeometricBrownian.Compounded | src/simulations/geometric_brownian.py:50-58 | the path has steps + 1 prices and starts at S0 |
| GeometricBrownian.CompoundedRecurrence | src/simulations/geometric_brownian.py:56-58 | each price is the previous one times that step's growth factor |
| GeometricBrownian.Growths | src/simulations/geometric_brownian.py:58 | step i's factor is e^(−σ²dt/2 + σ·Z[i]·√dt) |
| GeometricBrownian.CompoundedPositive | src/simulations/geometric_brownian.py:58 | positive factors keep a positive start positive |
| GeometricBrownian.CompoundedConstant | src/simulations/geometric_brownian.py:58 | unit factors leave the start unchanged |
| GeometricBrownian.PathPositive | src/simulations/geometric_brownian.py:58 | S0 > 0 and e^x > 0 give S[i] > 0 for every i |
| GeometricBrownian.PathConstantWithoutVolatility | src/simulations/geometric_brownian.py:58 | σ = 0 and e^0 = 1 give a constant path |
| GeometricBrownian.Compound | src/simulations/geometric_brownian.py:56-58 | the in-place loop `S[i] = S[i-1] * factor` leaves the compounded path from S[0] |
| GeometricBrownian.GeometricBrownianMotion.Simulate | src/simulations/geometric_brownian.py:44-59 | `simulate(steps)` raises iff steps < 1. Otherwise it returns steps + 1 prices from S0 compounding e^(−σ²dt/2 + σ·Z·√dt) with dt = 1/steps |
| GeometricBrowian.GeometricBrowianMotion.constructor | src/simulations/geometric_browian.py:5-9 | N, S0, σ and the seed are stored |
| GeometricBrowian.Increments | src/simulations/geometric_browian.py:16 | the N increments are √dt times the standard normals drawn after seeding |
| GeometricBrowian.Growths | src/simulations/geometric_browian.py:18-20 | step i's factor is e^(+σ²dt/2 + σ·dW[i]), with a plus sign |
| GeometricBrowian.SeededPath | src/simulations/geometric_browian.py:13-20 | N + 1 prices starting at S0 |
| GeometricBrowian.SeedFixesPath | src/simulations/geometric_browian.py:12-16 | reseeding makes the path depend only on the stream after the seed, so repeated calls return identical paths |
| GeometricBrowian.SeededPathPositive | src/simulations/geometric_browian.py:18-20 | S0 > 0 and e^x > 0 give S[i] > 0 for every i |
| GeometricBrowian.GeometricBrowianMotion.Simulate | src/simulations/geometric_browian.py:11-22 | a seed outside [0, 2³²) raises `ValueError`, and N < 1 raises as the other simulators do. Otherwise the result is `SeededPath`, the same on every call |

## Left out

- Plotting, pandas and CSV output (`get_dataframe`, the plotting helpers, `main.py`). These are I/O with no logic to state.
- The Monte Carlo, parameter-grid and sensitivity harnesses. They orchestrate runs, and their statistics are floating-point estimates.
- Random-number generation and its distributions. Draws are input sequences. The seeded simulator reads its generator as a function `gauss(seed, k)`, and no statistical claim is made.
- Floating-point rounding, overflow, NaN and infinity. All arithmetic is exact `real` arithmetic, and `exp`, `log` and `sqrt` are uninterpreted apart from `e^x > 0` and `e^0 = 1`. A γ or κ of zero is modelled as Python's `ZeroDivisionError` on float division.
- The abstract base classes `PricingStrategy`, `OrderExecution` and `MarketSimulator`. They hold no logic beyond refusing to construct a subclass that leaves an abstract method unimplemented, which only the asymmetric strategy does. The runner's strategy and execution are closed tagged unions of the per-step classes instead.
- The module-level demonstration run at the bottom of `poisson_execution_for_paths.py`.
- The shadowed no-argument `simulate` of `geometric_brownian.py`, which the later definition replaces.
- The cross-file constructor wiring. Some constructors pass arguments the callee does not accept or read attributes under other spellings. The whole-array strategies take the simulator's σ, step count and simulated path directly, and the whole-horizon executions take a strategy of the matching whole-array class.
- SimulationRunner.SimulationRunner.Run: modelled with the geometric market only, whose `simulate(steps)` takes the step count. The other two simulators' `simulate()` takes no argument, so the runner's call would raise `TypeError`. The whole-array strategies and whole-horizon executions are not runner variants, because their methods take no per-step arguments.
- SimulationRunner.SimulationRunner.constructor: requires dt ≠ 0. `T / dt` would raise there, and a Dafny constructor cannot fail.
- AvellanedaStoikovForAbm.AvellanedaStoikovStrategyAbm.constructor, AvellanedaStoikovForGbm.AvellanedaStoikovGBM.constructor and AvellanedaStoikovGbm.AvellanedaStoikovGBM.constructor: require a step count of at least one and a path covering it. The simulator they call raises otherwise, and so does `1 / T`.
- PoissonExecutionForAbm.PoissonExecutionForAbm.constructor and the other four whole-horizon execution constructors: require γ ≠ 0 and κ ≠ 0 of the strategy, because the strategy methods they call raise otherwise.
- AsymmetricAvellaneda.CalculateReservationPrice and AsymmetricAvellaneda.CalculateSpreads: Python cannot construct the class, because it leaves the abstract `calculate_spread` unimplemented, and raises `TypeError` instead. The model states what the two methods compute on the stored parameters, as a caller that bypassed construction would get. The `TypeError` itself is not modelled, and no runner variant holds the strategy.
- SimulationRunner.LogRow: the logged inventory is its value as a real. Python logs the int, and the difference is only a type.
- GeometricBrownian.GeometricBrownianMotion.Simulate: the growth factors are computed before the in-place loop. They depend on nothing the loop changes, so the result is the same as Python's, but the order of evaluation is not modelled.
- GeometricBrowian.GeometricBrowianMotion.Simulate: the global generator's state after the call is not modelled.
- The calls to `matplotlib` and the unused imports in `simulation_runner.py`.

## Findings

| source | as written | input that shows it | evidently intended | confidence | as-written member | corrected member |
|---|---|---|---|---|---|---|
| src/executions/poisson_execution.py:28-30 | the ask check is indented at the level of the `for`, so it runs once after the loop, with i = T − 1; at most one share is ever sold and T = 0 raises `UnboundLocalError` | T = 2, bid = 99 and ask = 101 at both steps, every draw below λ·dt: the position ends at inventory 1, cash −97 instead of inventory 0, cash +4 | the ask check inside the loop, as in src/executions/poisson_execution_for_abm.py:58-61, giving inventory q₀ + #bid fills − #ask fills within T of q₀ | high (not executed) | PoissonExecution.PoissonOrderExecution.ExecuteOrders, Fills.TrailingAskDiffersFromInLoop | PoissonExecutionForAbm.PoissonExecutionForAbm.ExecuteOrders, Fills.HorizonLedger |
| src/executions/poisson_execution_for_paths.py:24-26 | the same out-of-loop ask check over the geometric quotes | T = 2, bid = 99 and ask = 101 at both steps, every draw below λ·dt: inventory 1, cash −97 instead of inventory 0, cash +4 | the ask check inside the loop, as in src/executions/poisson_execution_for_gbm.py:58-61 | high (not executed) | PoissonExecutionForPaths.PoissonExecutionForPaths.ExecuteOrders, Fills.TrailingAskDiffersFromInLoop | PoissonExecutionForGbm.PoissonExecutionForGbm.ExecuteOrders, Fills.HorizonLedger |
| src/core/simulation_runner.py:78 | `log('wealth', …)` on a logger created without a 'wealth' column (src/core/data_logger.py:5-12) | any run with at least one step and a strategy that can quote: iteration 0 raises `KeyError('wealth')` | a logger that also holds a 'wealth' column, so every completed step adds one entry to each of the seven columns | high (not executed) | SimulationRunner.StockLoggerStopsAtWealth | SimulationRunner.AllKeysLoggerGrows, SimulationRunner.Steps |
