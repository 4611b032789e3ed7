/** The market simulator object: four configuration values fixed at
    construction and a stock/clock pair that reset and step update in place.
    Each method's postcondition ties the new fields to the value-level
    definitions of module Episode. */
module Simulator {
  import opened Episode

  class MarketSimulator {
    const baseDemand: real
    const elasticity: real
    const competitorPrice: real
    const maxInventory: int

    var inventory: int
    var time: int

    /** The steps taken since the last reset, oldest first. */
    ghost var moves: seq<Move>

    /** The fields are those the steps since the last reset lead to from a
        full stock at time zero; hence stock lies between empty and the
        ceiling and the clock counts those steps. */
    ghost predicate Valid()
      reads this
    {
      && 0.0 <= baseDemand
      && 0 <= maxInventory
      && NonNegativeDemands(moves)
      && Current() == Run(Initial(maxInventory), moves)
      && 0 <= inventory <= maxInventory
      && time == |moves|
    }

    /** The mutable fields as a value. */
    function Current(): (s: State)
      reads this
    {
      State(inventory, time)
    }

    /** Stores the configuration and starts the first episode. */
    constructor (baseDemand: real := 120.0, elasticity: real := 0.08,
                 competitorPrice: real := 100.0, maxInventory: int := 500)
      requires 0.0 <= baseDemand && 0 <= maxInventory
      ensures Valid()
      ensures this.baseDemand == baseDemand && this.elasticity == elasticity
      ensures this.competitorPrice == competitorPrice && this.maxInventory == maxInventory
      ensures inventory == maxInventory && time == 0 && moves == []
    {
      this.baseDemand := baseDemand;
      this.elasticity := elasticity;
      this.competitorPrice := competitorPrice;
      this.maxInventory := maxInventory;
      new;
      var _ := Reset();
    }

    /** Starts a new episode: full stock, clock at zero. */
    method Reset() returns (obs: Observation)
      requires 0.0 <= baseDemand && 0 <= maxInventory
      modifies this
      ensures Valid()
      ensures inventory == maxInventory && time == 0
      ensures Current() == Initial(maxInventory) && moves == []
      ensures obs == Observation(maxInventory, 0, competitorPrice)
    {
      inventory := maxInventory;
      time := 0;
      moves := [];
      obs := GetState();
    }

    /** A fresh snapshot of stock, clock and competitor price. */
    method GetState() returns (obs: Observation)
      ensures obs == Observe(Current(), competitorPrice)
    {
      obs := Observation(inventory, time, competitorPrice);
    }

    /** One step at the given price, against the integer demand that price met:
        sells the smaller of demand and stock at that price, takes it out of
        stock, advances the clock and reports whether the episode is over. */
    method Step(price: real, demand: int) returns (obs: Observation, revenue: real, done: bool, info: Info)
      requires Valid() && 0 <= demand
      modifies this
      ensures Valid()
      ensures Current() == Next(old(Current()), demand)
      ensures time == old(time) + 1
      ensures 0 <= inventory <= old(inventory)
      ensures info.demand == demand
      ensures info.unitsSold == Sold(demand, old(inventory))
      ensures 0 <= info.unitsSold <= old(inventory)
      ensures inventory == old(inventory) - info.unitsSold
      ensures revenue == info.unitsSold as real * price && info.revenue == revenue
      ensures info == StepInfo(old(Current()), Move(price, demand))
      ensures done <==> inventory <= 0 || time >= Horizon
      ensures done == IsDone(Current())
      ensures obs == Observe(Current(), competitorPrice)
      ensures moves == old(moves) + [Move(price, demand)]
      ensures Horizon <= |moves| ==> done
      ensures old(inventory) == 0 ==> info.unitsSold == 0 && inventory == 0
    {
      ghost var before := Current();
      var unitsSold := Sold(demand, inventory);
      revenue := unitsSold as real * price;
      inventory := inventory - unitsSold;
      time := time + 1;
      done := inventory <= 0 || time >= Horizon;
      info := Info(demand, unitsSold, revenue);
      obs := GetState();
      moves := moves + [Move(price, demand)];
      RunAppend(Initial(maxInventory), old(moves), [Move(price, demand)]);
      assert Run(before, [Move(price, demand)]) == Next(before, demand);
    }
  }

  /** With the default configuration, two resets in a row give the same
      observation, and the reference step (price 100, demand 120) sells 120
      units for 12000 and leaves 380 in stock after one tick. */
  method ReferenceScenario()
  {
    var sim := new MarketSimulator();
    var first := sim.Reset();
    var second := sim.Reset();
    assert first == second;
    assert first == Observation(500, 0, 100.0);

    var obs, revenue, done, info := sim.Step(100.0, 120);
    assert info.unitsSold == 120;
    assert revenue == 12000.0;
    assert obs == Observation(380, 1, 100.0);
    assert !done;
  }

  /** A demand above a stock of 50 empties it and ends the episode at the
      first tick, well before the horizon. */
  method DepletionScenario()
  {
    var sim := new MarketSimulator(maxInventory := 50);
    var obs, revenue, done, info := sim.Step(100.0, 60);
    assert info.unitsSold == 50 && revenue == 5000.0;
    assert obs == Observation(0, 1, 100.0) && done;
  }

  /** A step on an empty stock sells nothing, while the clock still ticks and
      the episode stays over. */
  method EmptyStockScenario()
  {
    var sim := new MarketSimulator(maxInventory := 0);
    var obs, revenue, done, info := sim.Step(100.0, 60);
    assert info.demand == 60 && info.unitsSold == 0;
    assert obs == Observation(0, 1, 100.0) && done;
  }
}
