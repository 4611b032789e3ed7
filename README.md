# Market simulator, modelled and verified in Dafny

This project models the market simulator of the Expenses-Tracker repository.
The simulator is a discrete-time environment. A seller sets a price, meets a
demand, and sells out of a finite stock against a fixed competitor price.
It follows a reset → step protocol:

- the constructor fixes four configuration values: base demand, elasticity,
  competitor price and stock ceiling. It then resets.
- `reset` refills the stock to the ceiling and sets the clock to zero.
- `step(price)` sells `min(demand, stock)` units at that price and removes them
  from stock. It advances the clock by one tick and reports the episode as
  over once the stock is empty or the clock reaches the fixed horizon of 50.

The project has two modules:

- `Episode` (episode.dfy) gives the bookkeeping on values. It defines the
  state (stock, clock), the observation and the info record, the one-step
  transition `Next` and the terminal condition `IsDone`. It also defines
  `Run` and `Trace`, which give the state and the info records over a run of
  steps with no reset. The lemmas about whole episodes are here: the clock,
  stock bounds and monotone depletion, the horizon, the terminal state being
  absorbing, an empty stock, and the conservation of units sold.
- `Simulator` (simulator.dfy) holds the class `MarketSimulator`. Its
  configuration is `const` and its stock and clock are mutable fields. A
  ghost field `moves` records the steps taken since the last reset. `Valid()`
  states that the fields are `Run(Initial(maxInventory), moves)`, so every
  lemma about `Run` applies to the object. `Reset`, `GetState` and `Step`
  state the new fields and what they return. Three client methods
  (`ReferenceScenario`, `DepletionScenario`, `EmptyStockScenario`) derive,
  from the method contracts alone:
  - two resets in a row give the same observation;
  - the reference step at the default configuration sells 120 units for
    12000, leaving 380 in stock after one tick;
  - a stock of 50 is depleted and the episode ends at the first tick;
  - a step on an empty stock sells nothing. The scenario states the units
    sold and not the zero revenue, because the solver runs out of resources
    on that real-number fact for a freshly constructed object. The zero
    revenue still follows from `Step`'s revenue clause, and
    `Episode.Exhausted` proves it for every run from an empty stock.

The demand a price meets is an input to `Step` and must be non-negative. The
demand formula is an exponential with a random factor, and it is not
modelled. Only its final cast to an integer is modelled, as
`Episode.TruncateToInt`, and only on finite values (see "## Left out").

## Model

| member | source | states |
|---|---|---|
| `Episode.TruncateToInt` | expenses_tracker/market_simluator.py:37 | the integer cast truncates toward zero: for x >= 0 the result is the largest integer not above x, for x < 0 the smallest not below it |
| `Episode.DemandNonNegative` | expenses_tracker/market_simluator.py:31-37 | a non-negative expected demand times a noise factor in [0.8, 1.2] truncates to a demand that is at least 0 and at most the noisy product, which is at most 1.2 times the expectation |
| `Episode.Sold` | expenses_tracker/market_simluator.py:39 | units sold are the minimum of demand and stock: at most each of them and equal to one of them |
| `Episode.Next` | expenses_tracker/market_simluator.py:39-43 | one step ticks the clock by exactly one; it leaves stock minus demand when the demand fits and an empty stock otherwise; with non-negative demand and stock the new stock is within [0, the old stock] |
| `Episode.StepInfo` | expenses_tracker/market_simluator.py:39-40 | the info record repeats the demand, gives units sold as min(demand, stock), and has revenue equal to units sold times price; units sold lie in [0, stock] |
| `Episode.Trace` | expenses_tracker/market_simluator.py:47-53 | a run of steps yields exactly one info record per step |
| `Episode.RunAppend` | expenses_tracker/market_simluator.py:42-43 | running two lists of steps one after the other is the same as running their concatenation, because the state persists between calls |
| `Episode.Initial` | expenses_tracker/market_simluator.py:17-19 | the state reset assigns: stock equal to the ceiling and clock 0; that state is already terminal exactly when the ceiling is not positive |
| `Episode.Observe` | expenses_tracker/market_simluator.py:22-27 | the observation of a state carries exactly its stock, its clock and the competitor price |
| `Episode.IsDone` | expenses_tracker/market_simluator.py:45 | the `done` flag: a stock at or below 0 ends the episode, a clock at or past 50 ends it, and a positive stock before the horizon does not |
| `Episode.Run` | expenses_tracker/market_simluator.py:39-43 | the state after consecutive steps with no reset in between; the clock has advanced by exactly the number of steps |
| `Episode.RunInventoryBounds` | expenses_tracker/market_simluator.py:39-42 | with non-negative demands, stock after any run lies in [0, the stock at the start] |
| `Episode.RunMonotone` | expenses_tracker/market_simluator.py:39-42 | with non-negative demands, stock is non-increasing along an episode: at a later step it is never more than at an earlier one, and never negative |
| `Episode.HorizonDone` | expenses_tracker/market_simluator.py:43-45 | from a reset, the episode has ended after 50 steps whatever the prices and demands; before the 50th step, with a non-negative ceiling and non-negative demands, it has ended exactly when the stock is empty |
| `Episode.DepletingStepDone` | expenses_tracker/market_simluator.py:39-45 | a step whose demand reaches the stock empties it and ends the episode even before the horizon |
| `Episode.DoneAbsorbing` | expenses_tracker/market_simluator.py:39-45 | once the episode has ended, further steps without a reset keep it ended |
| `Episode.TraceAt` | expenses_tracker/market_simluator.py:39-51 | the k-th info record is computed from the state reached after the first k steps, so the revenue identity holds at every step of a run |
| `Episode.Exhausted` | expenses_tracker/market_simluator.py:39-45 | from an empty stock every later step sells 0 units and earns 0 revenue, the stock stays empty, and the clock still advances once per step |
| `Episode.SoldConservation` | expenses_tracker/market_simluator.py:39-42 | the units sold over a run add up to exactly the stock the run used up |
| `Simulator.MarketSimulator.constructor` | expenses_tracker/market_simluator.py:4-15 | stores the four configuration values, with the defaults 120, 0.08, 100 and 500, for a non-negative base demand and ceiling, and leaves the object reset: full stock, clock 0, no steps taken |
| `Simulator.MarketSimulator.Reset` | expenses_tracker/market_simluator.py:17-20 | from any state it restores stock = ceiling and clock = 0 and forgets past steps; the observation it returns depends only on the configuration, so two resets in a row return the same one |
| `Simulator.MarketSimulator.GetState` | expenses_tracker/market_simluator.py:22-27 | the observation is exactly the current stock, the current clock and the competitor price |
| `Simulator.MarketSimulator.Step` | expenses_tracker/market_simluator.py:29-53 | the new state is `Next` of the old one and the move is appended to the history. The clock advances by exactly one and stock decreases by the units sold, min(demand, old stock), never going negative. Revenue is units sold times price, and info repeats demand, units sold and that revenue. `done` holds exactly when stock <= 0 or clock >= 50, so it holds from the 50th step after a reset. A step from an empty stock sells nothing. Configuration is untouched, since it is `const` |

## Left out

- The demand formula of expenses_tracker/market_simluator.py:31-36 is left out. It is base demand times `exp(-elasticity * (price - competitor price))` times a uniform random draw from [0.8, 1.2], and is floating-point transcendental arithmetic plus process-wide randomness. `Step` takes that integer demand as a parameter. Its `requires 0 <= demand` is the property the formula guarantees for a non-negative base demand, and `DemandNonNegative` shows why for the cast.
- `Simulator.MarketSimulator.Step`: takes the already-truncated demand rather than the price alone. It therefore does not model how demand depends on price, and does not model the one random draw each call consumes.
- The property that expected demand falls as price rises is left out. It is a statement about the exponential.
- `Simulator.MarketSimulator.Step`: never fails, for any price. The source's `step` can fail. At a price far enough below the competitor price (about -8712 with the default configuration), the exponential at expenses_tracker/market_simluator.py:31-34 overflows to `inf`, and numpy only warns. The cast `int(demand * noise)` at line 37 then raises `OverflowError`, before lines 42-43 change any state. A `nan` price makes the same cast raise `ValueError`. The model takes the integer demand as an input, so it has no such failure. `Episode.TruncateToInt` is defined on real numbers only, which are always finite.
- Prices and revenue are exact Dafny `real`s, not IEEE doubles. Rounding in `units_sold * price` is not modelled. Python integers are unbounded, as Dafny's `int` is, so stock and clock need no width.
- `Simulator.MarketSimulator.constructor`: requires a non-negative stock ceiling and a non-negative base demand; the source checks neither. With a negative ceiling, `min(demand, inventory)` would be negative and the stock would grow. With a negative base demand, the demand itself is negative (base demand -120 at price 100 and noise 1.0 gives demand -120), so a step sells -120 units, earns negative revenue and lifts the stock above the ceiling. Neither behaviour is modelled, and `Valid()` carries both bounds.
- The configuration values are Python attributes that nothing in the class reassigns. The model makes them `const`, so outside code that reassigns them is not modelled.
- The observation and info are returned as immutable values. The aliasing of the returned dictionaries is therefore not an issue in the model.
- expenses_tracker/app.py is not part of this model (Streamlit rendering, pandas reporting, Excel export). Nor is expenses_tracker/database.py (SQLite connection, schema, insert and select).
