/** The bookkeeping of one market-simulator episode, on values: the state the
    simulator keeps, the transition one step makes, the terminal condition, and
    what happens to the state over a run of steps with no reset in between.
    The class in simulator.dfy is proved against these definitions. */
module Episode {

  /** The hard-coded episode length: a step that brings the clock to this value
      reports the episode as finished. */
  const Horizon: int := 50

  /** The mutable part of a simulator: units in stock and steps taken so far. */
  datatype State = State(inventory: int, time: int)

  /** The snapshot handed back by reset and step. */
  datatype Observation = Observation(inventory: int, time: int, competitorPrice: real)

  /** The diagnostic record a step returns beside its revenue. */
  datatype Info = Info(demand: int, unitsSold: int, revenue: real)

  /** What a caller feeds one step: the price it sets and the integer demand
      that price met (the demand formula itself is not part of this model). */
  datatype Move = Move(price: real, demand: int)

  /** The state at the start of an episode: full stock, clock at zero. An
      episode whose ceiling is not positive is over before its first step. */
  function Initial(maxInventory: int): (r: State)
    ensures r.inventory == maxInventory && r.time == 0
    ensures IsDone(r) <==> maxInventory <= 0
  {
    State(maxInventory, 0)
  }

  /** The observation of a state: stock, clock and the fixed competitor price. */
  function Observe(s: State, competitorPrice: real): (o: Observation)
    ensures o.inventory == s.inventory && o.time == s.time
    ensures o.competitorPrice == competitorPrice
  {
    Observation(s.inventory, s.time, competitorPrice)
  }

  /** Conversion of a real to an integer by truncation toward zero, as the cast
      applied to the noisy expected demand does. */
  function TruncateToInt(x: real): (n: int)
    ensures 0.0 <= x ==> 0 <= n && n as real <= x < n as real + 1.0
    ensures x < 0.0 ==> n <= 0 && n as real - 1.0 < x <= n as real
  {
    if 0.0 <= x then x.Floor else -((-x).Floor)
  }

  /** The demand a step sees is never negative: the expected demand is a
      positive multiple of an exponential and the noise factor is drawn from
      [0.8, 1.2], so their product is non-negative before truncation. */
  lemma DemandNonNegative(expected: real, noise: real)
    requires 0.0 <= expected && 0.8 <= noise <= 1.2
    ensures 0 <= TruncateToInt(expected * noise)
    ensures TruncateToInt(expected * noise) as real <= expected * noise <= 1.2 * expected
  {
  }

  /** Units sold: the smaller of demand and stock. */
  function Sold(demand: int, inventory: int): (u: int)
    ensures u <= demand && u <= inventory
    ensures u == demand || u == inventory
  {
    if demand < inventory then demand else inventory
  }

  /** One step: sell what can be sold, take it out of stock, tick the clock. */
  function Next(s: State, demand: int): (r: State)
    ensures r.time == s.time + 1
    ensures r.inventory == if demand <= s.inventory then s.inventory - demand else 0
    ensures 0 <= demand && 0 <= s.inventory ==> 0 <= r.inventory <= s.inventory
  {
    State(s.inventory - Sold(demand, s.inventory), s.time + 1)
  }

  /** The terminal condition reported after a step: an empty (or negative)
      stock, or a clock at the horizon, ends the episode; nothing else does. */
  predicate IsDone(s: State)
    ensures s.inventory <= 0 ==> IsDone(s)
    ensures Horizon <= s.time ==> IsDone(s)
    ensures 0 < s.inventory && s.time < Horizon ==> !IsDone(s)
  {
    s.inventory <= 0 || s.time >= Horizon
  }

  /** The info record of a step taken from state s. */
  function StepInfo(s: State, m: Move): (i: Info)
    ensures i.demand == m.demand
    ensures i.unitsSold == Sold(m.demand, s.inventory)
    ensures i.revenue == i.unitsSold as real * m.price
    ensures 0 <= m.demand && 0 <= s.inventory ==> 0 <= i.unitsSold <= s.inventory
  {
    var u := Sold(m.demand, s.inventory);
    Info(m.demand, u, u as real * m.price)
  }

  /** Every step of ms meets a non-negative demand. */
  predicate NonNegativeDemands(ms: seq<Move>)
  {
    forall i :: 0 <= i < |ms| ==> 0 <= ms[i].demand
  }

  /** The state after taking the steps ms, in order, with no reset: every
      step advances the clock by exactly one tick. */
  function Run(s: State, ms: seq<Move>): (r: State)
    ensures r.time == s.time + |ms|
    decreases |ms|
  {
    if ms == [] then s else Run(Next(s, ms[0].demand), ms[1..])
  }

  /** The info records the steps ms return, in order. */
  function Trace(s: State, ms: seq<Move>): (t: seq<Info>)
    ensures |t| == |ms|
    decreases |ms|
  {
    if ms == [] then [] else [StepInfo(s, ms[0])] + Trace(Next(s, ms[0].demand), ms[1..])
  }

  /** Units sold over a list of info records. */
  function TotalSold(t: seq<Info>): (n: int)
  {
    if t == [] then 0 else t[0].unitsSold + TotalSold(t[1..])
  }

  lemma NonNegativeDemandsTail(ms: seq<Move>)
    requires ms != [] && NonNegativeDemands(ms)
    ensures 0 <= ms[0].demand && NonNegativeDemands(ms[1..])
  {
  }

  lemma NonNegativeDemandsPrefix(ms: seq<Move>, k: int)
    requires 0 <= k <= |ms| && NonNegativeDemands(ms)
    ensures NonNegativeDemands(ms[..k]) && NonNegativeDemands(ms[k..])
  {
  }

  /** Running a + b is running a, then b from where a left off. */
  lemma {:induction false} RunAppend(s: State, a: seq<Move>, b: seq<Move>)
    ensures Run(s, a + b) == Run(Run(s, a), b)
    decreases |a|
  {
    if a == [] {
      assert a + b == b;
    } else {
      assert (a + b)[0] == a[0];
      assert (a + b)[1..] == a[1..] + b;
      RunAppend(Next(s, a[0].demand), a[1..], b);
    }
  }

  /** With non-negative demands, stock never grows and never goes negative. */
  lemma {:induction false} RunInventoryBounds(s: State, ms: seq<Move>)
    requires 0 <= s.inventory && NonNegativeDemands(ms)
    ensures 0 <= Run(s, ms).inventory <= s.inventory
    decreases |ms|
  {
    if ms != [] {
      NonNegativeDemandsTail(ms);
      RunInventoryBounds(Next(s, ms[0].demand), ms[1..]);
    }
  }

  /** Stock is non-increasing along an episode and stays within
      [0, the stock at its start]: the later of two points never has more. */
  lemma {:induction false} RunMonotone(s: State, ms: seq<Move>, i: int, j: int)
    requires 0 <= s.inventory && NonNegativeDemands(ms)
    requires 0 <= i <= j <= |ms|
    ensures 0 <= Run(s, ms[..j]).inventory <= Run(s, ms[..i]).inventory <= s.inventory
  {
    NonNegativeDemandsPrefix(ms, j);
    var p := ms[..j];
    NonNegativeDemandsPrefix(p, i);
    assert p[..i] == ms[..i];
    assert p == p[..i] + p[i..];
    RunAppend(s, p[..i], p[i..]);
    RunInventoryBounds(s, p[..i]);
    RunInventoryBounds(Run(s, p[..i]), p[i..]);
  }

  /** From the start of an episode, the episode has ended by the Horizon-th
      step whatever the prices and demands; before that, with a non-negative
      ceiling and non-negative demands, it has ended exactly when the stock is
      exhausted. */
  lemma HorizonDone(maxInventory: int, ms: seq<Move>)
    ensures Horizon <= |ms| ==> IsDone(Run(Initial(maxInventory), ms))
    ensures 0 <= maxInventory && NonNegativeDemands(ms) && |ms| < Horizon ==>
      (IsDone(Run(Initial(maxInventory), ms)) <==> Run(Initial(maxInventory), ms).inventory == 0)
  {
    if 0 <= maxInventory && NonNegativeDemands(ms) {
      RunInventoryBounds(Initial(maxInventory), ms);
    }
  }

  /** A step whose demand meets or exceeds the stock empties it and ends the
      episode, whatever the clock says. */
  lemma DepletingStepDone(s: State, demand: int)
    requires 0 <= s.inventory <= demand
    ensures Next(s, demand).inventory == 0 && IsDone(Next(s, demand))
  {
  }

  /** Once the episode has ended, further steps without a reset keep it ended. */
  lemma {:induction false} DoneAbsorbing(s: State, ms: seq<Move>)
    requires 0 <= s.inventory && NonNegativeDemands(ms) && IsDone(s)
    ensures IsDone(Run(s, ms))
    decreases |ms|
  {
    if ms != [] {
      NonNegativeDemandsTail(ms);
      DoneAbsorbing(Next(s, ms[0].demand), ms[1..]);
    }
  }

  /** The k-th info record is the one of the step taken from the state the
      first k steps reached. */
  lemma {:induction false} TraceAt(s: State, ms: seq<Move>, k: int)
    requires 0 <= k < |ms|
    ensures Trace(s, ms)[k] == StepInfo(Run(s, ms[..k]), ms[k])
    decreases k
  {
    if k > 0 {
      assert ms[..k] == [ms[0]] + ms[1..][..k - 1];
      RunAppend(s, [ms[0]], ms[1..][..k - 1]);
      TraceAt(Next(s, ms[0].demand), ms[1..], k - 1);
    }
  }

  /** Once stock is exhausted, every later step sells nothing, earns nothing
      and leaves the stock empty, while the clock keeps ticking. */
  lemma {:induction false} Exhausted(s: State, ms: seq<Move>)
    requires s.inventory == 0 && NonNegativeDemands(ms)
    ensures Run(s, ms) == State(0, s.time + |ms|)
    ensures forall k :: 0 <= k < |ms| ==> Trace(s, ms)[k] == Info(ms[k].demand, 0, 0.0)
    decreases |ms|
  {
    if ms != [] {
      NonNegativeDemandsTail(ms);
      var t := Next(s, ms[0].demand);
      Exhausted(t, ms[1..]);
      forall k | 0 <= k < |ms|
        ensures Trace(s, ms)[k] == Info(ms[k].demand, 0, 0.0)
      {
        if k > 0 {
          assert Trace(s, ms)[k] == Trace(t, ms[1..])[k - 1];
        }
      }
    }
  }

  /** Units sold over a run are exactly the stock the run used up. */
  lemma {:induction false} SoldConservation(s: State, ms: seq<Move>)
    ensures TotalSold(Trace(s, ms)) == s.inventory - Run(s, ms).inventory
    decreases |ms|
  {
    if ms != [] {
      var t := Trace(s, ms);
      assert t[1..] == Trace(Next(s, ms[0].demand), ms[1..]);
      SoldConservation(Next(s, ms[0].demand), ms[1..]);
    }
  }
}
