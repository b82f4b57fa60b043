/** The map-region grid of `MapManager`: the square map is cut into a
    4 x 4 grid of regions, each named after a distinct station name, and a
    point is labelled with the name of the region that contains it. */
module MapManager {
  import opened Wrappers
  import opened Collections

  const MapXLength: int := 1024
  const MapYLength: int := 1024
  const MapXSplit: int := 4
  const MapYSplit: int := 4

  /** The number of regions `init_map_regions` appends. */
  const RegionCount: int := MapXSplit * MapYSplit

  /** The sixteen names a region can be given. The module-level shuffle only
      permutes this list; draws are indices into it. */
  const StationNames: seq<string> :=
    ["勿洛", "马泉营", "星达城", "西红门", "大红门", "佐敦", "尖沙咀", "旧宫",
     "新宫", "马家堡", "义顺", "顺义", "朝阳", "工人体育场", "爱情公寓", "莱佛士坊"]

  datatype MapRegion = MapRegion(startX: int, startY: int, name: string)

  /** `int(a / b)`: true division followed by truncation toward zero. */
  function TruncDiv(a: int, b: int): int
    requires b != 0
  {
    var q := (if a < 0 then -a else a) / (if b < 0 then -b else b);
    if (a < 0) != (b < 0) then -q else q
  }

  /** Width of one region column (`map_x_split_length`): the columns tile the map exactly. */
  function MapXSplitLength(): (len: int)
    ensures len > 0
    ensures len * MapXSplit == MapXLength
  {
    TruncDiv(MapXLength, MapXSplit)
  }

  /** Height of one region row (`map_y_split_length`): the rows tile the map exactly. */
  function MapYSplitLength(): (len: int)
    ensures len > 0
    ensures len * MapYSplit == MapYLength
  {
    TruncDiv(MapYLength, MapYSplit)
  }

  /** A multiple of `len` leaves no remainder. */
  lemma MultipleHasNoRemainder(q: int, len: int)
    requires len > 0
    ensures (q * len) % len == 0
  {
    var a := q * len;
    var d := q - a / len;
    assert d * len == a % len;
  }

  /** `v - v % len`: the start of the length-`len` cell that contains `v`.
      Python's `%` floors; for a positive `len` that is Dafny's `%` as well. */
  function Snap(v: int, len: int): (start: int)
    requires len > 0
    ensures start % len == 0
    ensures start <= v < start + len
  {
    MultipleHasNoRemainder(v / len, len);
    v - v % len
  }

  /** The cell found by `Snap` is the only aligned cell containing `v`. */
  lemma SnapUnique(v: int, len: int, start: int)
    requires len > 0
    requires start % len == 0 && start <= v < start + len
    ensures start == Snap(v, len)
  {
    var s := Snap(v, len);
    var d := start / len - s / len;
    assert start - s == d * len;
  }

  /** The origin the `k`-th appended region gets: regions are appended column by
      column (x outer, y inner). */
  function GridOrigin(k: int): (origin: (int, int))
    requires 0 <= k < RegionCount
    ensures 0 <= origin.0 < MapXLength && origin.0 % MapXSplitLength() == 0
    ensures 0 <= origin.1 < MapYLength && origin.1 % MapYSplitLength() == 0
  {
    (MapXSplitLength() * (k / MapYSplit), MapYSplitLength() * (k % MapYSplit))
  }

  /** The grid index of the region whose cell contains the map point (x, y). */
  function GridIndex(x: int, y: int): (k: int)
    requires 0 <= x < MapXLength && 0 <= y < MapYLength
    ensures 0 <= k < RegionCount
  {
    (x / MapXSplitLength()) * MapYSplit + y / MapYSplitLength()
  }

  /** Distinct grid indices get distinct origins. */
  lemma GridOriginInjective(j: int, k: int)
    requires 0 <= j < RegionCount && 0 <= k < RegionCount
    ensures GridOrigin(j) == GridOrigin(k) <==> j == k
  {
    if GridOrigin(j) == GridOrigin(k) {
      assert j / 4 == k / 4 && j % 4 == k % 4;
    }
  }

  /** The region origin snapped to from a map point is the origin of `GridIndex`. */
  lemma SnapIsGridOrigin(x: int, y: int)
    requires 0 <= x < MapXLength && 0 <= y < MapYLength
    ensures GridOrigin(GridIndex(x, y)) ==
            (Snap(x, MapXSplitLength()), Snap(y, MapYSplitLength()))
  {
    assert MapXSplitLength() == 256 && MapYSplitLength() == 256;
    var a := x / 256;
    var b := y / 256;
    var k := GridIndex(x, y);
    assert k == 4 * a + b && 0 <= b < 4;
    assert k / 4 == a && k % 4 == b;
    assert Snap(x, 256) == 256 * a && Snap(y, 256) == 256 * b;
  }

  function Names(regions: seq<MapRegion>): (names: seq<string>)
    ensures |names| == |regions|
    ensures forall i :: 0 <= i < |regions| ==> names[i] == regions[i].name
  {
    seq(|regions|, i requires 0 <= i < |regions| => regions[i].name)
  }

  predicate ValidChoiceDraws(draws: seq<int>)
  {
    forall i :: 0 <= i < |draws| ==> 0 <= draws[i] < |StationNames|
  }

  /** The outcome of a rejection loop: the accepted value and how many draws it took. */
  datatype Pick = Pick(name: string, used: nat)

  /** `choice_name`: draw names until one is not in `exist`. `draws` are the
      successive outcomes of `choice(STATION_NAMES)`; `None` means they ran out
      before a name was accepted. */
  function ChooseName(exist: seq<string>, draws: seq<int>): (r: Option<Pick>)
    requires ValidChoiceDraws(draws)
    ensures r.None? ==> forall j :: 0 <= j < |draws| ==> StationNames[draws[j]] in exist
    ensures r.Some? ==>
      && 1 <= r.value.used <= |draws|
      && r.value.name == StationNames[draws[r.value.used - 1]]
      && r.value.name !in exist
      && forall j :: 0 <= j < r.value.used - 1 ==> StationNames[draws[j]] in exist
    decreases |draws|
  {
    if |draws| == 0 then None
    else
      var candidate := StationNames[draws[0]];
      if candidate !in exist then Some(Pick(candidate, 1))
      else
        match ChooseName(exist, draws[1..])
        case None => None
        case Some(p) => Some(Pick(p.name, p.used + 1))
  }

  /** The result of `init_map_regions`: the extended region list and the unused draws. */
  datatype Filled = Filled(regions: seq<MapRegion>, rest: seq<int>)

  /** Every region from position `from` on has a name no earlier region has. */
  predicate FreshNamesFrom(regions: seq<MapRegion>, from: int)
  {
    forall p, q :: 0 <= q < p < |regions| && from <= p ==> regions[q].name != regions[p].name
  }

  /** Regions from position `start` on sit at the grid origins, in append order. */
  predicate GridFrom(regions: seq<MapRegion>, start: int)
    requires 0 <= start <= |regions| <= start + RegionCount
  {
    forall p :: start <= p < |regions| ==>
      (regions[p].startX, regions[p].startY) == GridOrigin(p - start)
  }

  /** Appending a region with an unused name keeps every name from `from` on fresh. */
  lemma AppendFreshName(regions: seq<MapRegion>, from: int, region: MapRegion)
    requires FreshNamesFrom(regions, from)
    requires region.name !in Names(regions)
    ensures FreshNamesFrom(regions + [region], from)
  {
    var ext := regions + [region];
    forall p, q | 0 <= q < p < |ext| && from <= p
      ensures ext[q].name != ext[p].name
    {
      if p == |regions| {
        assert ext[q].name == Names(regions)[q];
      }
    }
  }

  /** What one run of the `init_map_regions` loop guarantees about its result
      `f`, having started from the list `acc`. */
  predicate FillResult(acc: seq<MapRegion>, start: int, f: Filled)
    requires 0 <= start <= |acc| <= start + RegionCount
  {
    && |f.regions| == start + RegionCount
    && f.regions[..|acc|] == acc
    && ValidChoiceDraws(f.rest)
    && (GridFrom(acc, start) ==> GridFrom(f.regions, start))
    && (FreshNamesFrom(acc, start) ==> FreshNamesFrom(f.regions, start))
    && forall p :: |acc| <= p < |f.regions| ==> f.regions[p].name in StationNames
  }

  /** A result of the loop after appending `region` is a result of the loop before. */
  lemma FillStep(acc: seq<MapRegion>, start: int, region: MapRegion, f: Filled)
    requires 0 <= start <= |acc| < start + RegionCount
    requires (region.startX, region.startY) == GridOrigin(|acc| - start)
    requires region.name !in Names(acc) && region.name in StationNames
    requires FillResult(acc + [region], start, f)
    ensures FillResult(acc, start, f)
  {
    var next := acc + [region];
    assert f.regions[..|acc|] == acc by {
      assert f.regions[..|next|][..|acc|] == acc;
    }
    assert f.regions[|acc|] == region by {
      assert f.regions[..|next|][|acc|] == region;
    }
    if FreshNamesFrom(acc, start) {
      AppendFreshName(acc, start, region);
    }
    if GridFrom(acc, start) {
      assert GridFrom(next, start);
    }
  }

  /** The loop of `init_map_regions`, having already appended `|acc| - start` regions. */
  function FillRegions(acc: seq<MapRegion>, start: int, draws: seq<int>): (r: Option<Filled>)
    requires 0 <= start <= |acc| <= start + RegionCount
    requires ValidChoiceDraws(draws)
    ensures r.Some? ==> FillResult(acc, start, r.value)
    decreases start + RegionCount - |acc|
  {
    if |acc| == start + RegionCount then Some(Filled(acc, draws))
    else
      match ChooseName(Names(acc), draws)
      case None => None
      case Some(p) =>
        var origin := GridOrigin(|acc| - start);
        var region := MapRegion(origin.0, origin.1, p.name);
        var r := FillRegions(acc + [region], start, draws[p.used..]);
        if r.None? then r
        else
          FillStep(acc, start, region, r.value);
          r
  }

  /** `init_map_regions`: append the sixteen grid regions to `regions`. */
  function InitMapRegions(regions: seq<MapRegion>, draws: seq<int>): (r: Option<Filled>)
    requires ValidChoiceDraws(draws)
    ensures r.Some? ==>
      && |r.value.regions| == |regions| + RegionCount
      && r.value.regions[..|regions|] == regions
      && GridFrom(r.value.regions, |regions|)
      && FreshNamesFrom(r.value.regions, |regions|)
  {
    FillRegions(regions, |regions|, draws)
  }

  /** Index of the first region whose origin is (cx, cy), searching from `i`. */
  function FindRegion(cx: int, cy: int, regions: seq<MapRegion>, i: nat): (r: Option<nat>)
    requires i <= |regions|
    ensures r.None? ==> forall j :: i <= j < |regions| ==> (regions[j].startX, regions[j].startY) != (cx, cy)
    ensures r.Some? ==>
      && i <= r.value < |regions|
      && (regions[r.value].startX, regions[r.value].startY) == (cx, cy)
      && forall j :: i <= j < r.value ==> (regions[j].startX, regions[j].startY) != (cx, cy)
    decreases |regions| - i
  {
    if i == |regions| then None
    else if regions[i].startX == cx && regions[i].startY == cy then Some(i)
    else FindRegion(cx, cy, regions, i + 1)
  }

  /** Whether region `j` has its origin at the snapped cell of (x, y). */
  predicate RegionAt(regions: seq<MapRegion>, j: int, x: int, y: int)
    requires 0 <= j < |regions|
  {
    (regions[j].startX, regions[j].startY) == (Snap(x, MapXSplitLength()), Snap(y, MapYSplitLength()))
  }

  /** `get_region_name`: the name of the first region whose origin is the
      snapped point, or None when there is none. */
  function GetRegionName(x: int, y: int, regions: seq<MapRegion>): (r: Option<string>)
    ensures r.None? <==> forall j :: 0 <= j < |regions| ==> !RegionAt(regions, j, x, y)
    ensures r.Some? ==> exists j :: 0 <= j < |regions| && RegionAt(regions, j, x, y) && r.value == regions[j].name
                                   && forall i :: 0 <= i < j ==> !RegionAt(regions, i, x, y)
  {
    var cx := Snap(x, MapXSplitLength());
    var cy := Snap(y, MapYSplitLength());
    match FindRegion(cx, cy, regions, 0)
    case None => None
    case Some(j) =>
      assert RegionAt(regions, j, x, y);
      Some(regions[j].name)
  }

  /** The shape `init_map_regions` leaves an initially empty list in. */
  predicate IsRegionGrid(regions: seq<MapRegion>)
  {
    && |regions| == RegionCount
    && GridFrom(regions, 0)
    && FreshNamesFrom(regions, 0)
    && forall p :: 0 <= p < |regions| ==> regions[p].name in StationNames
  }

  /** On the initialised grid, every point of the map gets the name of the
      region of its cell, and the snapped point matches no other region. */
  lemma {:induction false} RegionLookupOnGrid(x: int, y: int, regions: seq<MapRegion>)
    requires IsRegionGrid(regions)
    requires 0 <= x < MapXLength && 0 <= y < MapYLength
    ensures GetRegionName(x, y, regions) == Some(regions[GridIndex(x, y)].name)
    ensures forall j :: 0 <= j < |regions| ==> (RegionAt(regions, j, x, y) <==> j == GridIndex(x, y))
  {
    var k := GridIndex(x, y);
    SnapIsGridOrigin(x, y);
    forall j | 0 <= j < |regions|
      ensures RegionAt(regions, j, x, y) <==> j == k
    {
      GridOriginInjective(j, k);
    }
  }

  /** On the initialised grid, a point off the map has no region. */
  lemma {:induction false} RegionLookupOffGrid(x: int, y: int, regions: seq<MapRegion>)
    requires IsRegionGrid(regions)
    requires !(0 <= x < MapXLength && 0 <= y < MapYLength)
    ensures GetRegionName(x, y, regions) == None
  {
    forall j | 0 <= j < |regions|
      ensures !RegionAt(regions, j, x, y)
    {
      var o := GridOrigin(j);
      assert (regions[j].startX, regions[j].startY) == o;
    }
  }

  /** The sixteen candidate region names are pairwise distinct. */
  lemma StationNamesDistinct()
    ensures Distinct(StationNames)
    ensures |Elements(StationNames)| == RegionCount
  {
    DistinctElementsCount(StationNames);
  }

  /** Every candidate region name has at least two characters, and its first
      two characters differ. */
  lemma StationNamesShape()
    ensures forall n :: n in StationNames ==> |n| >= 2 && n[0] != n[1]
  {
  }

  /** Sixteen distinct candidate names use up every candidate name. */
  lemma {:induction false} DistinctNamesUseAllCandidates(regions: seq<MapRegion>)
    requires |regions| == RegionCount
    requires FreshNamesFrom(regions, 0)
    requires forall p :: 0 <= p < |regions| ==> regions[p].name in StationNames
    ensures Elements(Names(regions)) == Elements(StationNames)
  {
    var names := Names(regions);
    assert Distinct(names);
    DistinctElementsCount(names);
    StationNamesDistinct();
    assert Elements(names) <= Elements(StationNames) by {
      forall n | n in Elements(names)
        ensures n in Elements(StationNames)
      {
        var p :| 0 <= p < |names| && names[p] == n;
        assert regions[p].name in StationNames;
      }
    }
    SubsetSize(Elements(names), Elements(StationNames));
  }

  /** `init_map_regions` on an empty list yields the region grid, and since the
      sixteen names it picks are distinct, every candidate name names exactly one region. */
  lemma {:induction false} InitMapRegionsFromEmpty(draws: seq<int>)
    requires ValidChoiceDraws(draws)
    requires InitMapRegions([], draws).Some?
    ensures IsRegionGrid(InitMapRegions([], draws).value.regions)
    ensures Elements(Names(InitMapRegions([], draws).value.regions)) == Elements(StationNames)
  {
    var f := InitMapRegions([], draws).value;
    assert FillResult([], 0, f);
    assert FreshNamesFrom([], 0);
    assert GridFrom([], 0);
    DistinctNamesUseAllCandidates(f.regions);
  }

  /** The grid origins are the cell corners (256 x, 256 y), x, y in [0, 4). */
  lemma GridOriginsAreCellCorners(k: int)
    requires 0 <= k < RegionCount
    ensures GridOrigin(k) == (256 * (k / 4), 256 * (k % 4))
  {
  }
}
