/** Stations (`Station`): a position on the map, an ownership status, a class
    with the acquisition price drawn for it at creation, an opaque identity,
    and a display name generated from the region the station stands in. */
module Stations {
  import opened Wrappers
  import opened StationClasses
  import opened MapManager

  datatype StationStatus = Unused | Enabled | Disabled

  /** Stands for the random UUID string a station gets at creation. */
  type StationId = nat

  datatype Station = Station(
    posX: int,
    posY: int,
    status: StationStatus,
    stationClass: Option<StationClass>,
    buyPricing: Option<int>,
    id: StationId,
    name: Option<string>)

  /** Python truthiness of an optional class: None is false, an `IntEnum`
      member is true exactly when its value is not 0. */
  predicate ClassIsTruthy(c: Option<StationClass>)
  {
    c.Some? && c.value.Value() != 0
  }

  /** Constructing a station (the dataclass constructor followed by
      `__post_init__`). The caller's status, price and name are kept, except
      that a station with a class is repriced by a draw from its class's range;
      `priceDraw` is the outcome of that draw and is ignored for a station
      without a class. The identity is always replaced by the fresh `id`. */
  function NewStation(posX: int, posY: int, status: StationStatus, stationClass: Option<StationClass>,
                      buyPricing: Option<int>, name: Option<string>, id: StationId, priceDraw: int): (s: Station)
    requires stationClass.Some? ==> ValidPriceDraw(stationClass.value, priceDraw)
    ensures s.posX == posX && s.posY == posY && s.id == id
    ensures s.status == status && s.name == name && s.stationClass == stationClass
    ensures stationClass.Some? ==> s.buyPricing == Some(RandomPrice(stationClass.value, priceDraw))
    ensures stationClass.Some? ==>
      PriceLow(stationClass.value) <= s.buyPricing.value < PriceHigh(stationClass.value)
    ensures stationClass.None? ==> s.buyPricing == buyPricing
  {
    var pricing := if ClassIsTruthy(stationClass) then Some(RandomPrice(stationClass.value, priceDraw)) else buyPricing;
    Station(posX, posY, status, stationClass, pricing, id, name)
  }

  /** The square of the Euclidean distance between two stations. */
  function SquaredDistance(a: Station, b: Station): (d: int)
    ensures d >= 0
    ensures d == 0 <==> (a.posX == b.posX && a.posY == b.posY)
  {
    var dx := a.posX - b.posX;
    var dy := a.posY - b.posY;
    dx * dx + dy * dy
  }

  lemma SquaredDistanceSymmetric(a: Station, b: Station)
    ensures SquaredDistance(a, b) == SquaredDistance(b, a)
  {
    var dx := a.posX - b.posX;
    var dy := a.posY - b.posY;
    assert (-dx) * (-dx) == dx * dx;
    assert (-dy) * (-dy) == dy * dy;
  }

  /** The lists a name prefix and a name suffix are chosen from; most entries are empty. */
  const StationNamePrefixes: seq<string> := ["", "", "", "", "", "", "", "", "", "", "新", "旧"]
  const StationNameSuffixes: seq<string> := ["", "", "", "", "", "", "", "", "", "", "东", "南", "西", "北"]

  /** One round of name generation: the indices chosen into the prefix and suffix lists. */
  datatype AffixDraw = AffixDraw(prefix: int, suffix: int)

  predicate ValidAffixDraw(d: AffixDraw)
  {
    0 <= d.prefix < |StationNamePrefixes| && 0 <= d.suffix < |StationNameSuffixes|
  }

  predicate ValidAffixDraws(draws: seq<AffixDraw>)
  {
    forall i :: 0 <= i < |draws| ==> ValidAffixDraw(draws[i])
  }

  /** How a region lookup is rendered inside the name: a missing region prints as "None". */
  function RegionLabel(region: Option<string>): (text: string)
    ensures region.Some? ==> text == region.value
    ensures region.None? ==> |text| == 4
  {
    match region
    case Some(n) => n
    case None => "None"
  }

  /** The candidate name one draw produces around the region tag. */
  function Candidate(tag: string, d: AffixDraw): (c: string)
    requires ValidAffixDraw(d)
    ensures |c| >= |tag|
  {
    StationNamePrefixes[d.prefix] + tag + StationNameSuffixes[d.suffix]
  }

  /** A candidate long enough to be inspected that the loop throws away: its first
      two characters are equal, or the known-name set is non-empty and holds it. */
  predicate Rejected(tag: string, exist: Option<set<string>>, d: AffixDraw)
    requires ValidAffixDraw(d)
  {
    var c := Candidate(tag, d);
    |c| >= 2 && (c[0] == c[1] || (exist.Some? && exist.value != {} && c in exist.value))
  }

  /** The outcome of the name loop: an accepted name together with the updated
      known-name set and the number of draws used; the index error raised on a
      candidate shorter than two characters; or running out of draws. */
  datatype NameOutcome =
    | Named(name: string, names: Option<set<string>>, used: nat)
    | NameIndexError(used: nat)
    | NamesExhausted

  /** The rejection loop of `generate_station_name` over the draws `draws`. */
  function PickStationName(tag: string, exist: Option<set<string>>, draws: seq<AffixDraw>): (r: NameOutcome)
    requires ValidAffixDraws(draws)
    ensures r.NamesExhausted? ==> forall j :: 0 <= j < |draws| ==> Rejected(tag, exist, draws[j])
    ensures !r.NamesExhausted? ==> 1 <= r.used <= |draws|
    ensures !r.NamesExhausted? ==> forall j :: 0 <= j < r.used - 1 ==> Rejected(tag, exist, draws[j])
    ensures r.NameIndexError? ==> |Candidate(tag, draws[r.used - 1])| < 2
    ensures r.Named? ==>
      && r.name == Candidate(tag, draws[r.used - 1])
      && |r.name| >= 2 && r.name[0] != r.name[1]
      && (exist.Some? ==> r.name !in exist.value && r.names == Some(exist.value + {r.name}))
      && (exist.None? ==> r.names.None?)
    decreases |draws|
  {
    if |draws| == 0 then NamesExhausted
    else
      var c := Candidate(tag, draws[0]);
      if |c| < 2 then NameIndexError(1)
      else if Rejected(tag, exist, draws[0]) then
        match PickStationName(tag, exist, draws[1..])
        case Named(n, names, used) => Named(n, names, used + 1)
        case NameIndexError(used) => NameIndexError(used + 1)
        case NamesExhausted => NamesExhausted
      else
        Named(c, if exist.Some? then Some(exist.value + {c}) else None, 1)
  }

  /** `generate_station_name`: a name for a station at (x, y) built from the
      name of its map region. */
  function GenerateStationName(regions: seq<MapRegion>, x: int, y: int, exist: Option<set<string>>, draws: seq<AffixDraw>): (r: NameOutcome)
    requires ValidAffixDraws(draws)
    ensures r.Named? ==> 1 <= r.used <= |draws|
    ensures r.Named? ==> r.name == Candidate(RegionLabel(GetRegionName(x, y, regions)), draws[r.used - 1])
    ensures r.Named? ==> |r.name| >= 2 && r.name[0] != r.name[1]
    ensures r.Named? && exist.Some? ==> r.name !in exist.value && r.names == Some(exist.value + {r.name})
    ensures r.Named? && exist.None? ==> r.names.None?
  {
    PickStationName(RegionLabel(GetRegionName(x, y, regions)), exist, draws)
  }

  /** On the initialised region grid the name loop never indexes a short
      candidate: every region name, and the "None" tag, has two or more characters. */
  lemma GenerateOnGridNeverRaises(regions: seq<MapRegion>, x: int, y: int, exist: Option<set<string>>, draws: seq<AffixDraw>)
    requires IsRegionGrid(regions)
    requires ValidAffixDraws(draws)
    ensures !GenerateStationName(regions, x, y, exist, draws).NameIndexError?
  {
    var region := GetRegionName(x, y, regions);
    if region.Some? {
      var j :| 0 <= j < |regions| && RegionAt(regions, j, x, y) && region.value == regions[j].name;
      StationNamesShape();
      assert regions[j].name in StationNames;
    }
  }
}
