/** Initial game setup (`Game.__init__`): build the region grid, place ten
    unused stations at random positions with random classes and prices, give
    each a distinct generated name, and set the starting money. */
module Game {
  import opened Wrappers
  import opened Collections
  import opened StationClasses
  import opened MapManager
  import opened Stations

  const InitialStationCount: int := 10
  const InitialMoney: int := 1500

  /** The random outcomes that create one station: its position, its class and
      the draw that prices it. */
  datatype StationDraw = StationDraw(x: int, y: int, stationClass: StationClass, priceDraw: int)

  predicate ValidStationDraw(d: StationDraw)
  {
    && 0 <= d.x < MapXLength
    && 0 <= d.y < MapYLength
    && ValidPriceDraw(d.stationClass, d.priceDraw)
  }

  datatype GameState = GameState(
    mapRegions: seq<MapRegion>,
    stations: seq<Station>,
    stationNames: set<string>,
    money: int)

  /** Why setup did not finish: a random source ran out of draws before a
      rejection loop accepted, or a candidate name was too short to index. */
  datatype SetupError = DrawsExhausted | NameTooShort

  /** The name of `s` is a generated candidate around `tag`: some prefix, then
      `tag`, then some suffix. */
  ghost predicate NamedAround(s: Station, tag: string)
  {
    s.name.Some? && exists a :: ValidAffixDraw(a) && s.name.value == Candidate(tag, a)
  }

  /** Station `s` is the one setup creates from draw `d` with identity `id`,
      named after its region in `regions`. */
  ghost predicate PlacedFrom(s: Station, d: StationDraw, id: StationId, regions: seq<MapRegion>)
    requires ValidStationDraw(d)
  {
    && s.posX == d.x && s.posY == d.y
    && s.status == Unused
    && s.stationClass == Some(d.stationClass)
    && s.buyPricing == Some(RandomPrice(d.stationClass, d.priceDraw))
    && s.id == id
    && s.name.Some?
    && |s.name.value| >= 2 && s.name.value[0] != s.name.value[1]
    && NamedAround(s, RegionLabel(GetRegionName(d.x, d.y, regions)))
  }

  /** The stations carry pairwise distinct names, and `names` is exactly the set of them. */
  predicate NamesRecorded(stations: seq<Station>, names: set<string>)
  {
    && (forall i :: 0 <= i < |stations| ==> stations[i].name.Some? && stations[i].name.value in names)
    && (forall n :: n in names ==> exists i :: 0 <= i < |stations| && stations[i].name == Some(n))
    && (forall i, j :: 0 <= i < j < |stations| ==> stations[i].name != stations[j].name)
  }

  predicate ValidStationDraws(draws: seq<StationDraw>)
  {
    forall i :: 0 <= i < |draws| ==> ValidStationDraw(draws[i])
  }

  /** Recording a fresh name for a new station keeps the names recorded. */
  lemma RecordName(stations: seq<Station>, names: set<string>, s: Station, n: string)
    requires NamesRecorded(stations, names)
    requires n !in names
    ensures NamesRecorded(stations + [s.(name := Some(n))], names + {n})
  {
    var ext := stations + [s.(name := Some(n))];
    forall m | m in names + {n}
      ensures exists i :: 0 <= i < |ext| && ext[i].name == Some(m)
    {
      if m == n {
        assert ext[|stations|].name == Some(m);
      } else {
        var i :| 0 <= i < |stations| && stations[i].name == Some(m);
        assert ext[i].name == Some(m);
      }
    }
  }

  /** Every station in `stations` is placed from the draw and id at its position. */
  ghost predicate AllPlaced(stations: seq<Station>, stationDraws: seq<StationDraw>, ids: seq<StationId>,
                            regions: seq<MapRegion>)
    requires |stations| <= |stationDraws| == |ids|
    requires ValidStationDraws(stationDraws)
  {
    forall i :: 0 <= i < |stations| ==> PlacedFrom(stations[i], stationDraws[i], ids[i], regions)
  }

  /** Appending the station made from the next draw keeps every station placed from its draw. */
  lemma PlaceNext(placed: seq<Station>, s: Station, stationDraws: seq<StationDraw>, ids: seq<StationId>,
                  regions: seq<MapRegion>)
    requires |placed| < |stationDraws| == |ids|
    requires ValidStationDraws(stationDraws)
    requires AllPlaced(placed, stationDraws, ids, regions)
    requires PlacedFrom(s, stationDraws[|placed|], ids[|placed|], regions)
    ensures AllPlaced(placed + [s], stationDraws, ids, regions)
  {
    forall i | 0 <= i < |placed| + 1
      ensures PlacedFrom((placed + [s])[i], stationDraws[i], ids[i], regions)
    {
      if i < |placed| {
        assert (placed + [s])[i] == placed[i];
      }
    }
  }

  /** The station created from draw `d` and named by the station-name loop is placed from `d`. */
  lemma NamedStationPlaced(regions: seq<MapRegion>, d: StationDraw, id: StationId,
                           names: set<string>, nameDraws: seq<AffixDraw>)
    requires ValidStationDraw(d) && ValidAffixDraws(nameDraws)
    requires GenerateStationName(regions, d.x, d.y, Some(names), nameDraws).Named?
    ensures PlacedFrom(NewStation(d.x, d.y, Unused, Some(d.stationClass), None, None, id, d.priceDraw)
                         .(name := Some(GenerateStationName(regions, d.x, d.y, Some(names), nameDraws).name)),
                       d, id, regions)
  {
    var outcome := GenerateStationName(regions, d.x, d.y, Some(names), nameDraws);
    var tag := RegionLabel(GetRegionName(d.x, d.y, regions));
    assert ValidAffixDraw(nameDraws[outcome.used - 1]) && outcome.name == Candidate(tag, nameDraws[outcome.used - 1]);
  }

  /** The loop of `Game.__init__` that creates stations, having created `placed` so far. */
  function PlaceStations(regions: seq<MapRegion>, placed: seq<Station>, names: set<string>,
                         stationDraws: seq<StationDraw>, nameDraws: seq<AffixDraw>, ids: seq<StationId>)
    : (r: Result<(seq<Station>, set<string>), SetupError>)
    requires |placed| <= |stationDraws| == |ids|
    requires ValidStationDraws(stationDraws) && ValidAffixDraws(nameDraws)
    requires AllPlaced(placed, stationDraws, ids, regions)
    requires NamesRecorded(placed, names)
    ensures r.Success? ==> |r.value.0| == |stationDraws|
    ensures r.Success? ==> AllPlaced(r.value.0, stationDraws, ids, regions)
    ensures r.Success? ==> NamesRecorded(r.value.0, r.value.1)
    ensures IsRegionGrid(regions) && r.Failure? ==> r.error == DrawsExhausted
    decreases |stationDraws| - |placed|
  {
    if |placed| == |stationDraws| then Success((placed, names))
    else
      var d := stationDraws[|placed|];
      var s := NewStation(d.x, d.y, Unused, Some(d.stationClass), None, None, ids[|placed|], d.priceDraw);
      var outcome := GenerateStationName(regions, s.posX, s.posY, Some(names), nameDraws);
      assert IsRegionGrid(regions) ==> !outcome.NameIndexError? by {
        if IsRegionGrid(regions) {
          GenerateOnGridNeverRaises(regions, s.posX, s.posY, Some(names), nameDraws);
        }
      }
      match outcome
      case NamesExhausted => Failure(DrawsExhausted)
      case NameIndexError(_) => Failure(NameTooShort)
      case Named(n, newNames, used) =>
        var named := s.(name := Some(n));
        RecordName(placed, names, s, n);
        NamedStationPlaced(regions, d, ids[|placed|], names, nameDraws);
        PlaceNext(placed, named, stationDraws, ids, regions);
        var next := placed + [named];
        PlaceStations(regions, next, newNames.value, stationDraws, nameDraws[used..], ids)
  }

  /** `Game.__init__`. `regionDraws` feed the region-name choices, `stationDraws`
      the ten stations, `nameDraws` the station-name loop, and `ids` stand for
      the stations' random identifiers. */
  function NewGame(regionDraws: seq<int>, stationDraws: seq<StationDraw>, nameDraws: seq<AffixDraw>, ids: seq<StationId>)
    : (r: Result<GameState, SetupError>)
    requires ValidChoiceDraws(regionDraws)
    requires |stationDraws| == InitialStationCount && ValidStationDraws(stationDraws)
    requires |ids| == InitialStationCount
    requires ValidAffixDraws(nameDraws)
    ensures r.Failure? ==> r.error == DrawsExhausted
    ensures r.Success? ==> IsRegionGrid(r.value.mapRegions)
    ensures r.Success? ==> |r.value.stations| == InitialStationCount
    ensures r.Success? ==> forall i :: 0 <= i < InitialStationCount ==>
      && PlacedFrom(r.value.stations[i], stationDraws[i], ids[i], r.value.mapRegions)
      && NamedAround(r.value.stations[i], r.value.mapRegions[GridIndex(stationDraws[i].x, stationDraws[i].y)].name)
      && 0 <= r.value.stations[i].posX < MapXLength
      && 0 <= r.value.stations[i].posY < MapYLength
      && PriceLow(stationDraws[i].stationClass) <= r.value.stations[i].buyPricing.value < PriceHigh(stationDraws[i].stationClass)
    ensures r.Success? ==> NamesRecorded(r.value.stations, r.value.stationNames)
    ensures r.Success? ==> r.value.money == InitialMoney
  {
    match InitMapRegions([], regionDraws)
    case None => Failure(DrawsExhausted)
    case Some(filled) =>
      InitMapRegionsFromEmpty(regionDraws);
      match PlaceStations(filled.regions, [], {}, stationDraws, nameDraws, ids)
      case Failure(e) => Failure(e)
      case Success(placed) =>
        assert forall i :: 0 <= i < InitialStationCount ==>
          NamedAround(placed.0[i], filled.regions[GridIndex(stationDraws[i].x, stationDraws[i].y)].name) by {
          forall i | 0 <= i < InitialStationCount
            ensures NamedAround(placed.0[i], filled.regions[GridIndex(stationDraws[i].x, stationDraws[i].y)].name)
          {
            RegionLookupOnGrid(stationDraws[i].x, stationDraws[i].y, filled.regions);
          }
        }
        Success(GameState(filled.regions, placed.0, placed.1, InitialMoney))
  }

  /** The first character, last character and length of a name: names that
      differ in any of them are different names. */
  function Signature(c: string): (int, char, char)
    requires |c| > 0
  {
    (|c|, c[0], c[|c| - 1])
  }

  /** The ten candidates around `tag` that `AcceptableDraws` picks, written out. */
  lemma AcceptableCandidatesDistinct(tag: string, head: string, cs: seq<string>)
    requires PlainName(tag)
    requires |head| == 1 && head[0] != tag[0]
    requires cs == [tag, tag + "东", tag + "南", tag + "西", tag + "北",
                    head + tag, head + tag + "东", head + tag + "南", head + tag + "西", head + tag + "北"]
    ensures Distinct(cs)
    ensures forall i :: 0 <= i < |cs| ==> |cs[i]| >= 2 && cs[i][0] != cs[i][1]
  {
    var n := |tag|;
    var sigs := seq(|cs|, i requires 0 <= i < |cs| => Signature(cs[i]));
    assert sigs == [(n, tag[0], tag[n - 1]), (n + 1, tag[0], '东'), (n + 1, tag[0], '南'),
                    (n + 1, tag[0], '西'), (n + 1, tag[0], '北'), (n + 1, head[0], tag[n - 1]),
                    (n + 2, head[0], '东'), (n + 2, head[0], '南'), (n + 2, head[0], '西'),
                    (n + 2, head[0], '北')];
    assert Distinct(sigs);
    forall i, j | 0 <= i < j < |cs|
      ensures cs[i] != cs[j]
    {
      assert sigs[i] != sigs[j];
    }
    forall i | 0 <= i < |cs|
      ensures |cs[i]| >= 2 && cs[i][0] != cs[i][1]
    {
      if i < 5 {
        assert cs[i][..2] == tag[..2];
      } else {
        assert cs[i][..2] == [head[0], tag[0]];
      }
    }
  }

  /** A region name that no prefix or suffix can make ambiguous: two or more
      characters, the first two different, and not ending in a compass suffix. */
  predicate PlainName(tag: string)
  {
    |tag| >= 2 && tag[0] != tag[1] && tag[|tag| - 1] !in {'东', '南', '西', '北'}
  }

  lemma StationNamesArePlain()
    ensures forall n :: n in StationNames ==> PlainName(n)
  {
  }

  /** Ten draws whose candidates around a region name are pairwise distinct and
      never doubled: no prefix with any of five suffixes, and the non-empty
      prefix that does not repeat the name's first character with any of five
      suffixes. */
  function AcceptableDraws(tag: string): (ds: seq<AffixDraw>)
    requires PlainName(tag)
    ensures |ds| == InitialStationCount && ValidAffixDraws(ds)
    ensures forall i :: 0 <= i < |ds| ==> !Rejected(tag, None, ds[i])
    ensures Distinct(seq(|ds|, i requires 0 <= i < |ds| => Candidate(tag, ds[i])))
  {
    var p := if tag[0] == '新' then 11 else 10;
    var head := StationNamePrefixes[p];
    var ds := [AffixDraw(0, 0), AffixDraw(0, 10), AffixDraw(0, 11), AffixDraw(0, 12), AffixDraw(0, 13),
               AffixDraw(p, 0), AffixDraw(p, 10), AffixDraw(p, 11), AffixDraw(p, 12), AffixDraw(p, 13)];
    var cs := seq(|ds|, i requires 0 <= i < |ds| => Candidate(tag, ds[i]));
    assert cs[0] == tag by { assert "" + tag + "" == tag; }
    assert cs[1] == tag + "东" && cs[2] == tag + "南" && cs[3] == tag + "西" && cs[4] == tag + "北" by {
      assert forall t :: "" + tag + t == tag + t;
    }
    assert cs[5] == head + tag by { assert head + tag + "" == head + tag; }
    assert cs[6] == head + tag + "东" && cs[7] == head + tag + "南";
    assert cs[8] == head + tag + "西" && cs[9] == head + tag + "北";
    assert cs == [tag, tag + "东", tag + "南", tag + "西", tag + "北",
                  head + tag, head + tag + "东", head + tag + "南", head + tag + "西", head + tag + "北"];
    AcceptableCandidatesDistinct(tag, head, cs);
    ds
  }

  /** While setup has named fewer than ten stations, the station-name loop
      always has a draw it accepts, whatever region the station stands in. */
  lemma {:induction false} AcceptableNameAvailable(tag: string, used: set<string>)
    requires tag in StationNames
    requires |used| < InitialStationCount
    ensures exists d :: ValidAffixDraw(d) && !Rejected(tag, Some(used), d)
  {
    StationNamesArePlain();
    var ds := AcceptableDraws(tag);
    var cs := seq(|ds|, i requires 0 <= i < |ds| => Candidate(tag, ds[i]));
    DistinctElementsCount(cs);
    if Elements(cs) <= used {
      SubsetSize(Elements(cs), used);
      assert false;
    }
    var i :| 0 <= i < |cs| && cs[i] !in used;
    assert ValidAffixDraw(ds[i]) && !Rejected(tag, Some(used), ds[i]);
  }
}
