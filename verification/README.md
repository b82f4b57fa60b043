# Train game core: station classes, map regions, names and setup

A Dafny model of the static side of a small train-economy game (`game.py`).
It covers the following:

- **Station classes.** There are five tiers. A tier sets a station's random acquisition price and its passenger capacity.
- **The map-region grid.** The 1024 x 1024 map is cut into 4 x 4 regions. Each region is named after a distinct station name, and a point is looked up by snapping it to its region's origin.
- **Name generation.** Region names and station names come from rejection loops that keep drawing until a candidate is acceptable.
- **Setup of a new game.** Setup builds the region grid, places ten unused stations with random positions, classes and prices, gives them distinct names and sets the starting money.

Randomness is a parameter. Every `choice(...)` becomes an index into the list it chooses from. Every `randbelow(n)` becomes an integer draw `0 <= r < n`. A rejection loop runs over a finite sequence of such draws and reports when the draws run out. The model is deterministic and total.

Files and modules:

- `wrappers.dfy` (`Wrappers`): `Option` and `Result`.
- `collections.dfy` (`Collections`): distinct sequences and the sizes of their element sets.
- `station_class.dfy` (`StationClasses`): the class enumeration, level, price draw and capacity.
- `map_manager.dfy` (`MapManager`): split lengths, snapping, the region grid, `choice_name`, `init_map_regions` and `get_region_name`.
- `stations.dfy` (`Stations`): the station record, construction and pricing, squared distance, and `generate_station_name`.
- `game.dfy` (`Game`): `Game.__init__`, plus the fact that an acceptable station name is always available during setup.

## Model

| member | source | states |
|---|---|---|
| StationClasses.Level | game.py:44 | The level `6 - class` of every class lies in [1, 5]. |
| StationClasses.LevelReversesClassOrder | game.py:25-30 | A smaller class number (a larger station) has a strictly larger level, and different classes have different levels. |
| StationClasses.PriceDrawBound | game.py:46 | The bound passed to `randbelow` is positive for every class (so the draw never raises), and it is a multiple of 100. |
| StationClasses.RandomPrice | game.py:42-47 | Every price drawn for class `c` lies in the half-open range [270·level, 270·level + 100·level). |
| StationClasses.RandomPriceCoversRange | game.py:42-47 | Every price in that range is produced by some valid draw. |
| StationClasses.RandomPriceInjective | game.py:45-47 | Different draws give different prices. Together with the previous row, draws and prices correspond one to one. |
| StationClasses.PriceLowOrderedByClass | game.py:44-45 | The lowest price of a class is strictly higher the larger the station is. |
| StationClasses.AdjacentPriceRangesOverlap | game.py:42-47 | The price ranges of neighbouring classes c and c + 1 share a price exactly when c is class 1 or class 2. There, a price does not determine the class. |
| StationClasses.Capacity | game.py:50-60 | The capacity is defined for all five classes. It equals the class's entry in the table 1200, 900, 650, 400, 175, which runs from class 1 to class 5. |
| StationClasses.CapacityStrictlyDecreasing | game.py:50-60 | Capacity strictly decreases as the class number increases, in both directions of the equivalence. |
| MapManager.MapXSplitLength | game.py:70-71 | `int(1024 / 4)` is positive, and four columns of that width tile the map width exactly. |
| MapManager.MapYSplitLength | game.py:74-75 | The same holds for the rows and the map height. |
| MapManager.Snap | game.py:93-94 | `v - v % len` is a multiple of `len` with `start <= v < start + len`, for every integer `v`, negative ones included. |
| MapManager.SnapUnique | game.py:93-94 | No other multiple of `len` has that property. |
| MapManager.GridOrigin | game.py:87-89 | The k-th appended region's origin lies on the map and is aligned to the region size on both axes. |
| MapManager.GridOriginInjective | game.py:87-89 | Two grid indices share an origin only if they are equal. |
| MapManager.GridOriginsAreCellCorners | game.py:87-89 | The origin of region k is (256·(k / 4), 256·(k % 4)), with x in the outer loop. |
| MapManager.ChooseName | game.py:78-83 | `choice_name` returns the first drawn name not in the existing names. Every earlier draw was an existing name. It returns nothing exactly when every draw was an existing name. |
| MapManager.FillRegions | game.py:86-89 | The append loop keeps the existing prefix, adds exactly sixteen regions at the grid origins, and gives each new region a candidate name that no earlier region has. |
| MapManager.InitMapRegions | game.py:86-89 | `init_map_regions` extends the list by sixteen grid regions whose names are fresh and pairwise distinct. |
| MapManager.StationNamesDistinct | game.py:16 | The sixteen candidate names are pairwise distinct, so there are exactly sixteen of them. |
| MapManager.StationNamesShape | game.py:16 | Every candidate name has at least two characters, and its first two characters differ. |
| MapManager.DistinctNamesUseAllCandidates | game.py:80-83 | Sixteen pairwise distinct region names drawn from the sixteen candidates use every candidate exactly once. |
| MapManager.InitMapRegionsFromEmpty | game.py:86-89 | Starting from an empty list, the result is the full grid, and its region names are exactly the sixteen candidate names. |
| MapManager.FindRegion | game.py:95-97 | The search returns the first region whose origin equals the snapped point, or nothing when no region matches. |
| MapManager.GetRegionName | game.py:92-98 | `get_region_name` returns None if and only if no region's origin equals the snapped point. Otherwise it returns the name of the first region in the list at that origin. |
| MapManager.SnapIsGridOrigin | game.py:93-94 | The point (x, y) snaps to the origin of grid index `(x / 256)·4 + y / 256`. |
| MapManager.RegionLookupOnGrid | game.py:92-98 | On the initialised grid, every point of [0, 1024)² gets the name of the one region whose origin is its snapped point. |
| MapManager.RegionLookupOffGrid | game.py:92-98 | On the initialised grid, every point off the map gets None. |
| Stations.NewStation | game.py:100-113 | A new station keeps the position, status, class and name it was given, and its identity is always the fresh id. Every class is truthy, so a station with a class is repriced by the draw, within the class's range. A station without a class keeps the price it was given. |
| Stations.SquaredDistance | game.py:115-117 | The squared distance is non-negative, and it is zero exactly when the two positions coincide. |
| Stations.SquaredDistanceSymmetric | game.py:115-117 | The distance is symmetric. |
| Stations.PickStationName | game.py:124-132 | The loop accepts the first draw whose candidate has distinct first two characters and is not in a non-empty set of known names. It adds the accepted name to the set when the set is given. A candidate shorter than two characters raises. Running out of draws means every draw was rejected. |
| Stations.GenerateStationName | game.py:120-132 | The accepted name is prefix + region name (or "None") + suffix. Its first two characters differ. It is not among the known names, and it is added to them when the set is not None. |
| Stations.GenerateOnGridNeverRaises | game.py:123-126 | On the initialised grid, the index check on the first two characters never raises. |
| Game.PlaceStations | game.py:150-152 | Each station comes from its own draw: position, class, price and id. It starts unused. Its name is some prefix, then its region's label at its position, then some suffix, and the name is not doubled. All names are pairwise distinct, and the shared name set is exactly the set of station names. On the grid, setup can fail only by running out of draws. |
| Game.NewGame | game.py:143-154 | Setup builds the sixteen-region grid and exactly ten unused stations. Every station has a position in [0, 1024)², a class, and a price within its class's range. Each station's name wraps the name of the grid region containing the station in a prefix and a suffix. Station names are pairwise distinct and recorded in the name set, and the money is 1500. |
| Game.AcceptableDraws | game.py:15-18 | For every region name, ten prefix/suffix draws give pairwise distinct candidates, none with a doubled leading character. |
| Game.AcceptableNameAvailable | game.py:124-132 | While fewer than ten station names are taken, some draw is always accepted, whatever the station's region. |

## Left out

- Randomness. `secrets.randbelow`, `secrets.choice` and `random.shuffle` are replaced by draw parameters. The module-level shuffle of the name list only permutes it. A choice from the permuted list reaches the same candidates, so the model indexes the list as written.
- Ids. `uuid4` identifiers are an opaque `StationId` parameter. Their uniqueness is not modelled.
- Termination of the rejection loops in `choice_name` and `generate_station_name`. Whether they stop depends on the random source. The model runs them over a finite draw sequence and reports running out. `Game.AcceptableNameAvailable` shows that an acceptable station-name draw always exists during setup.
- MapManager.InitMapRegions: a failed run is not characterised, and no condition on the draws is given under which the run succeeds.
- `Station.distance` uses a floating-point square root. The model keeps the squared Euclidean distance as an integer.
- `get_passenger_range` is an unfinished placeholder. It ignores its classes and returns 100. It is kept as the contract-free constant `StationClasses.PassengerRange`, and no range formula is invented.
- `get_random_price` is annotated as returning a pair, but it returns a single integer. The model follows the code.
- `get_capacity` would fall through to None for a value outside the enumeration. The enumeration is closed, so that case does not exist in the model.
- The statuses `enabled` and `disabled` are declared, but nothing in this code reaches them.
- `gameloop` is an empty stub, `main` is the endless process loop, and `__repr__` is display formatting. None of them is modelled.
- The game has no trains, no ledger of money movements, and no per-day logic in this code; `gameloop` is empty.
