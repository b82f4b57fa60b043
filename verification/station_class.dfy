/** The station class tiers of `StationClassEnum`: an `IntEnum` whose values
    run from 1 (largest station) to 5 (smallest), together with the pure
    pricing and capacity rules keyed by class. */
module StationClasses {

  datatype StationClass = Class1 | Class2 | Class3 | Class4 | Class5 {

    /** The integer value the `IntEnum` member carries. */
    function Value(): (v: int)
      ensures 1 <= v <= 5
    {
      match this
      case Class1 => 1
      case Class2 => 2
      case Class3 => 3
      case Class4 => 4
      case Class5 => 5
    }
  }

  /** Every member of the enumeration, in declaration order. */
  const AllClasses: seq<StationClass> := [Class1, Class2, Class3, Class4, Class5]

  /** The "level" used by every class formula: larger stations get a higher level. */
  function Level(c: StationClass): (l: int)
    ensures 1 <= l <= 5
  {
    6 - c.Value()
  }

  /** Level reverses the class order: a smaller class number is a larger station. */
  lemma LevelReversesClassOrder(c1: StationClass, c2: StationClass)
    ensures c1.Value() < c2.Value() <==> Level(c1) > Level(c2)
    ensures c1 == c2 <==> Level(c1) == Level(c2)
  {
  }

  /** The exclusive bound handed to the random source when a price is drawn;
      the random source refuses a bound that is not positive. */
  function PriceDrawBound(c: StationClass): (n: int)
    ensures n > 0
    ensures n % 100 == 0
  {
    100 * Level(c)
  }

  /** The half-open range [PriceLow(c), PriceHigh(c)) of acquisition prices of a class. */
  function PriceLow(c: StationClass): int
  {
    270 * Level(c)
  }

  function PriceHigh(c: StationClass): int
  {
    270 * Level(c) + 100 * Level(c)
  }

  /** A valid outcome of the random draw made when pricing a station of class `c`. */
  predicate ValidPriceDraw(c: StationClass, draw: int)
  {
    0 <= draw < PriceDrawBound(c)
  }

  /** The acquisition price of a station of class `c`, given the random
      draw `draw` taken below `PriceDrawBound(c)`. */
  function RandomPrice(c: StationClass, draw: int): (price: int)
    requires ValidPriceDraw(c, draw)
    ensures PriceLow(c) <= price < PriceHigh(c)
  {
    Level(c) * 270 + draw
  }

  /** Every price in the class's range is produced by exactly one valid draw,
      so the price is uniformly distributed over the range. */
  lemma RandomPriceCoversRange(c: StationClass, price: int)
    requires PriceLow(c) <= price < PriceHigh(c)
    ensures exists draw :: ValidPriceDraw(c, draw) && RandomPrice(c, draw) == price
  {
    var draw := price - PriceLow(c);
    assert ValidPriceDraw(c, draw) && RandomPrice(c, draw) == price;
  }

  lemma RandomPriceInjective(c: StationClass, d1: int, d2: int)
    requires ValidPriceDraw(c, d1) && ValidPriceDraw(c, d2)
    ensures RandomPrice(c, d1) == RandomPrice(c, d2) <==> d1 == d2
  {
  }

  /** The lowest price of a larger station is above the lowest price of a smaller one. */
  lemma PriceLowOrderedByClass(c1: StationClass, c2: StationClass)
    ensures c1.Value() < c2.Value() <==> PriceLow(c1) > PriceLow(c2)
  {
  }

  predicate InPriceRange(c: StationClass, price: int)
  {
    PriceLow(c) <= price < PriceHigh(c)
  }

  /** Whether some price lies in the ranges of both classes. */
  ghost predicate PriceRangesOverlap(c1: StationClass, c2: StationClass)
  {
    exists price :: InPriceRange(c1, price) && InPriceRange(c2, price)
  }

  /** The price ranges of neighbouring classes `c` and `c + 1` overlap exactly
      when `c` is class 1 or 2, so there a price does not determine its class. */
  lemma AdjacentPriceRangesOverlap(c: StationClass, next: StationClass)
    requires next.Value() == c.Value() + 1
    ensures PriceRangesOverlap(c, next) <==> c.Value() <= 2
  {
    if c.Value() <= 2 {
      assert InPriceRange(c, PriceLow(c)) && InPriceRange(next, PriceLow(c));
    }
  }

  /** Capacities listed by class value, largest station first. */
  const CapacityByValue: seq<int> := [1200, 900, 650, 400, 175]

  /** The passenger capacity of a station of class `c`. */
  function Capacity(c: StationClass): (cap: int)
    ensures cap == CapacityByValue[c.Value() - 1]
    ensures 175 <= cap <= 1200
  {
    match c
    case Class1 => 1200
    case Class2 => 900
    case Class3 => 650
    case Class4 => 400
    case Class5 => 175
  }

  /** Capacity strictly decreases as the class number increases. */
  lemma CapacityStrictlyDecreasing(c1: StationClass, c2: StationClass)
    ensures c1.Value() < c2.Value() <==> Capacity(c1) > Capacity(c2)
  {
  }

  /** The daily passenger range of a route; the source leaves this as an
      unfinished placeholder that ignores both classes. */
  function PassengerRange(from: StationClass, to: StationClass): int
  {
    100
  }
}
