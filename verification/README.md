# Circular SUMO scenario generator — Dafny model

This project models the discrete core of `CircleGenerator`, the generator for the
circular ("loop") road network used to set up SUMO traffic simulations. The generator works in two phases:

1. `generate_net` names the scenario `"%s-%dm%dl" % (base, length, lanes)`. It writes
   four nodes (bottom, right, top, left), four edges joining neighbouring nodes into
   one directed loop, a single edge type and a netconvert configuration. It then runs
   netconvert. The next phase uses the scenario name and the net file name.
2. `generate_cfg` requires `start_time` and `end_time`, checking `start_time` first. It then writes
   the additional file, the view settings and the master run configuration. The additional file
   holds four loop routes, one starting at each edge, and two rerouters that are
   active over the fixed interval [0, 100000], whatever the configured end time.

`makeRoutes` expands the vehicle types and their counts into the ids `type_0 … type_{n-1}`.
It can shuffle that list. It then pairs the list position by position with the caller's
`(route, departPos)` list.

Modules:

- `Wrappers`: `Option` and `Result`.
- `Decimal`: `str(i)` / `%d` rendering, truncation of a float toward zero, and the
  parsers that undo them.
- `Words`: `" ".join` and splitting on spaces, with the round trip.
- `Network`: the `Cardinal` node/edge ids, the node list, the edge topology, the
  scenario name and its parser, the derived file names, and `GenerateNet`.
- `Routes`: the route table, its `<route>` elements and the rerouters.
- `ScenarioConfig`: `GenerateCfg` and the lemmas that tie the two phases and
  the route file together.
- `Placement`: vehicle id enumeration, the shuffle (CPython's Fisher–Yates pass,
  driven by caller-supplied draws) and the pairing with positions (`MakeRoutes`).

Behaviour of the code that the model keeps:

- Rerouters target the route ids `routebottom` / `routetop`.
- netconvert's exit status is never examined.
- Too few positions raise `IndexError` at `positions[len(positions)]`. This is modelled as
  `PositionIndexOutOfRange(|positions|)`. No file is written in that case, because the route file is
  written only after the loop.
- The vehicle count `num_vehicles` only gates enumeration (`> 0`). The number of
  vehicles is the sum of the per-type counts, a negative count contributing none.
- Geometry is not validated.

`generate_net` returns `net_path + netfn`, but netconvert is told to write
`cfg_path + netfn`. `Network.ReturnedPathIsToolOutput` states that the two agree
exactly when the two directories are equal.

## Model

| member | source | states |
|---|---|---|
| Decimal.NatToString | cistar-dev/cistar/scenarios/loop/gen.py:182 | `str(i)` of a non-negative index is a non-empty run of digits with no leading zero unless the index is 0 |
| Decimal.IntToString | cistar-dev/cistar/scenarios/loop/gen.py:35 | `%d` of an integer is the plain digits for a non-negative value, and a minus sign followed by digits without a leading zero that read back as the magnitude for a negative one |
| Decimal.ParseNatToString | cistar-dev/cistar/scenarios/loop/gen.py:182 | reading back the decimal text `str(i)` of a non-negative index gives the index again |
| Decimal.NatToStringInjective | cistar-dev/cistar/scenarios/loop/gen.py:182 | two indices have the same decimal text if and only if they are equal |
| Decimal.TruncateToInt | cistar-dev/cistar/scenarios/loop/gen.py:35 | `%d` applied to the float length truncates toward zero: for x ≥ 0 the result i satisfies i ≤ x < i+1, and for x < 0 it satisfies i−1 < x ≤ i |
| Decimal.ParseNumberedSuffixOf | cistar-dev/cistar/scenarios/loop/gen.py:35 | `rest + sep + str(n)` with a non-digit separator reads back as `(rest, n)` whatever `rest` holds |
| Words.Join | cistar-dev/cistar/scenarios/loop/gen.py:136-139 | a space-joined word list starts with its first word (`SplitJoin` states the inverse) |
| Words.SplitJoin | cistar-dev/cistar/scenarios/loop/gen.py:136-139 | splitting a space-joined list of space-free words on spaces gives the list back |
| Network.ParseCardinalName | cistar-dev/cistar/scenarios/loop/gen.py:47-50 | the node/edge names `bottom right top left` and the four ids correspond one to one, and the names contain no space |
| Network.EdgeOf | cistar-dev/cistar/scenarios/loop/gen.py:54-66 | for every id there is an edge among the four written edges that carries that id |
| Network.EdgesChain | cistar-dev/cistar/scenarios/loop/gen.py:54-66 | in written order each edge ends at the node where the next begins, and the last (left→bottom) leads back to the first (bottom→right) |
| Network.EdgeEndpointsDistinct | cistar-dev/cistar/scenarios/loop/gen.py:54-66 | edge ids are distinct, and every node is left by exactly one edge and entered by exactly one edge |
| Network.EdgeNamedAfterTail | cistar-dev/cistar/scenarios/loop/gen.py:47-66 | each edge leaves the node it is named after, and that node is one of the four written nodes |
| Network.NextIsOneCycle | cistar-dev/cistar/scenarios/loop/gen.py:54-66 | following edges from any node returns to it after four steps and not after one, two or three, so the edges form a single directed 4-cycle |
| Network.ScenarioName | cistar-dev/cistar/scenarios/loop/gen.py:35 | the name `"%s-%dm%dl"` starts with the base and a `-` and ends in `l` (`ParseScenarioNameRoundTrip` states the inverse) |
| Network.ParseScenarioNameRoundTrip | cistar-dev/cistar/scenarios/loop/gen.py:35 | for non-negative length and lanes, parsing the name `"%s-%dm%dl"` from its end recovers the base, the truncated length and the lane count, whatever the base contains |
| Network.ScenarioNameInjective | cistar-dev/cistar/scenarios/loop/gen.py:35 | two scenarios with non-negative sizes share a name only if their bases, truncated lengths and lane counts agree |
| Network.NetFilesOf | cistar-dev/cistar/scenarios/loop/gen.py:37-41 | each of the five derived file names extends the scenario name |
| Network.NetFilesDistinct | cistar-dev/cistar/scenarios/loop/gen.py:37-41 | the five derived names (.nod.xml, .edg.xml, .typ.xml, .netccfg, .net.xml) all extend the scenario name and are pairwise distinct, also under a common directory |
| Network.GenerateNet | cistar-dev/cistar/scenarios/loop/gen.py:29-97 | the netconvert configuration reads exactly the node, edge and type files written before it and outputs the net file recorded for the next phase; both processing flags are set; the command runs netconvert on the configuration written last; there are four nodes and the four cycle edges, all of the one edge type `edgeType` (lanes, speed), each a quarter of the length |
| Network.GenerateNetFilesDistinct | cistar-dev/cistar/scenarios/loop/gen.py:37-89 | the four files written extend `net_path` + scenario name and are pairwise distinct. None of them is the returned path `net_path + netfn`, nor the file `cfg_path + netfn` netconvert is told to write, for any two directories |
| Network.EdgeLengthsSumToLength | cistar-dev/cistar/scenarios/loop/gen.py:44-69 | the four edge lengths add up exactly to the requested length |
| Network.ReturnedPathIsToolOutput | cistar-dev/cistar/scenarios/loop/gen.py:92-97 | the returned path is the file netconvert was told to write if and only if the net and config directories are equal |
| Routes.DriveIsClosedWalk | cistar-dev/cistar/scenarios/loop/gen.py:54-66 | driving four edges from any edge is a closed walk: each edge's end node is the next edge's start node, and the last edge's end is the first edge's start |
| Routes.RouteTableFollowsNetwork | cistar-dev/cistar/scenarios/loop/gen.py:136-139 | each route of the table is exactly the sequence of edges met when driving the network from the route's key edge |
| Routes.RouteIsRotation | cistar-dev/cistar/scenarios/loop/gen.py:136-139 | route i starts with its key edge and is `top left bottom right` rotated left by i places |
| Routes.RouteUsesEveryEdgeOnce | cistar-dev/cistar/scenarios/loop/gen.py:136-139 | every route contains each of the four edges exactly once (as a multiset) |
| Routes.RouteIsClosedWalk | cistar-dev/cistar/scenarios/loop/gen.py:136-139 | every route is a connected closed walk over the network's edges |
| Routes.RouteTableKeys | cistar-dev/cistar/scenarios/loop/gen.py:136-139 | the table has exactly four routes, whose keys are the four edges, each once |
| Routes.RouteElements | cistar-dev/cistar/scenarios/loop/gen.py:142-143 | one `<route>` element per table entry, in table order, with id `"route" + key` |
| Routes.RouteElementsText | cistar-dev/cistar/scenarios/loop/gen.py:136-143 | the route elements, both ids and `edges` texts, are exactly the four literal entries of `self.rts` in `generate_cfg`, in order |
| Routes.RouteElementEdgesParse | cistar-dev/cistar/scenarios/loop/gen.py:136-143 | splitting a route element's `edges` text on spaces names exactly that route's edges, in order |
| Routes.RouteIdsDistinct | cistar-dev/cistar/scenarios/loop/gen.py:142-143 | the four route ids are pairwise distinct |
| Routes.MakeRerouter | cistar-dev/cistar/scenarios/loop/gen.py:129-134 | a rerouter carries the given id, trigger edge and target, with interval begin 0 and end 100000 |
| Routes.RerouterTargets | cistar-dev/cistar/scenarios/loop/gen.py:129-145 | there are exactly two rerouters, `rerouterBottom` on edge bottom and `rerouterTop` on edge top, both over [0, 100000]; each target is the id of a route in the table, and that route starts at the rerouter's own edge |
| ScenarioConfig.Message | cistar-dev/cistar/scenarios/loop/gen.py:114-122 | the raised error text begins with the name of the missing field |
| ScenarioConfig.GenerateCfg | cistar-dev/cistar/scenarios/loop/gen.py:112-165 | fails if and only if a time bound is missing, naming `start_time` when it is absent and otherwise `end_time`; a failure writes nothing. On success the time window is the supplied pair, and the inputs are the phase-one net file, the written additional and view files, and the route file. The additional file holds the route table and the two rerouters, and the view scheme is "real world" |
| ScenarioConfig.CfgFilesDistinct | cistar-dev/cistar/scenarios/loop/gen.py:124-127 | the route, additional, config and view file names are pairwise distinct |
| ScenarioConfig.AdditionalReferencesResolve | cistar-dev/cistar/scenarios/loop/gen.py:141-146 | every rerouter in the additional file targets the id of a route written to the same file |
| ScenarioConfig.PhasesAgree | cistar-dev/cistar/scenarios/loop/gen.py:93-162 | with both time bounds present, the configuration is written under `cfg_path`, and the netconvert command's `--output-file=` is `cfg_path` followed by the net file name the configuration loads, so the configuration loads the file netconvert writes; the configuration is named after the phase-one scenario |
| ScenarioConfig.ReroutersCoverWindow | cistar-dev/cistar/scenarios/loop/gen.py:129-161 | each rerouter's fixed interval [0, 100000] covers the configured window [start_time, end_time] if and only if 0 ≤ start_time and end_time ≤ 100000 |
| ScenarioConfig.VehicleRoutesResolve | cistar-dev/cistar/scenarios/loop/gen.py:187-191 | when every position names one of the four edges, every placed vehicle's route is the id of a route in the additional file |
| Placement.VehicleId | cistar-dev/cistar/scenarios/loop/gen.py:182 | the id of vehicle i of a type starts with the type name and `_` and has at least one character after them (`VehicleIdRoundTrip` states the inverse: the rest is `str(i)`) |
| Placement.VehicleIdRoundTrip | cistar-dev/cistar/scenarios/loop/gen.py:182 | the id `type + "_" + str(i)` reads back, from its end, as the type and the index, whatever the type name contains |
| Placement.VehicleIdInjective | cistar-dev/cistar/scenarios/loop/gen.py:182 | two vehicle ids coincide if and only if their types and indices do |
| Placement.KeysOfType | cistar-dev/cistar/scenarios/loop/gen.py:180-182 | one type contributes max(count, 0) keys, the i-th being `(type, type_i)` |
| Placement.Enumerate | cistar-dev/cistar/scenarios/loop/gen.py:177-182 | the enumeration has as many keys as the sum of the non-negative counts |
| Placement.VehicleIds | cistar-dev/cistar/scenarios/loop/gen.py:177-182 | the list is empty when `num_cars <= 0`, otherwise as long as the sum of the counts |
| Placement.EnumerateOrder | cistar-dev/cistar/scenarios/loop/gen.py:179-182 | types are enumerated in dictionary order and each type's ids in index order: the i-th vehicle of type j sits at the position after all vehicles of the earlier types |
| Placement.EnumerateMembership | cistar-dev/cistar/scenarios/loop/gen.py:177-182 | a key is enumerated if and only if some type in the mapping has it as its i-th vehicle for some i below that type's count |
| Placement.EnumerateIdsDistinct | cistar-dev/cistar/scenarios/loop/gen.py:177-182 | with distinct type names every enumerated vehicle id is distinct |
| Placement.ShuffleRounds | cistar-dev/cistar/scenarios/loop/gen.py:184-185 | the swap rounds of the shuffle keep the length and the multiset of the list |
| Placement.Shuffle | cistar-dev/cistar/scenarios/loop/gen.py:184-185 | shuffling only permutes: same length, same multiset of (type, id) pairs |
| Placement.PlaceVehicle | cistar-dev/cistar/scenarios/loop/gen.py:189-191 | each vehicle keeps its type and id, takes route `"route" + position's route` and the position's departPos, and has depart "0", departSpeed "0" and color "1,0.0,0.0" |
| Placement.PlaceFrom | cistar-dev/cistar/scenarios/loop/gen.py:187-191 | the loop from index i fails if and only if the positions run out, reporting the index where they end; otherwise vehicle k is key k at position k |
| Placement.PlaceAll | cistar-dev/cistar/scenarios/loop/gen.py:187-191 | the whole loop fails if and only if there are fewer positions than vehicles; otherwise the vehicles carry exactly the given keys in order, the k-th at the k-th position |
| Placement.MakeRoutes | cistar-dev/cistar/scenarios/loop/gen.py:167-193 | with no types nothing is produced. Otherwise the result fails if and only if positions are too few. On success there is one vType per type with minGap "0", and one vehicle per key at the matching position with the fixed depart, speed and colour. The vehicles' (type, id) multiset equals the enumeration, and without shuffle the order equals it too |
| Placement.PermutationKeepsIdsDistinct | cistar-dev/cistar/scenarios/loop/gen.py:184-185 | shuffling a list of distinct vehicle ids keeps the ids distinct and keeps every original (type, id) pair exactly once |
| Placement.PlacementIsOneToOne | cistar-dev/cistar/scenarios/loop/gen.py:184-191 | with distinct type names every written vehicle has its own id, and every enumerated (type, id) pair, shuffled or not, is paired with exactly one position |
| Placement.TwoTypesEnumeration | cistar-dev/cistar/scenarios/loop/gen.py:177-182 | types a and b with two vehicles each enumerate as a_0, a_1, b_0, b_1 |
| Placement.TwoTypesExample | cistar-dev/cistar/scenarios/loop/gen.py:177-191 | without shuffle those vehicles take four given positions in order, a_0 on route top at 5 through b_1 on route right at 20 |

## Left out

- Node coordinates, the radius `length / pi`, the arc polylines (`cos`, `sin`, `linspace`, `%.2f` formatting) and `resolution`: floating-point geometry. Only the from/to topology and the exact edge length `length / 4` are modelled.
- XML construction and serialisation (`makexml`, `printxml`, element attributes as text, namespaces): external library code. Artifacts are modelled as datatypes, and numeric attributes as numbers, not `repr` text.
- Running netconvert: process I/O. The command string is modelled; its exit status is ignored by the code and so has no place in the model.
- The base class's `inputs`, `outputs` and `vehicle` helpers, `net_path`, `cfg_path`, `base` and logging: their source is not part of this model. Directories and the base name are parameters. The output block and the `outs` value that `generate_cfg` returns are not modelled. A vehicle is modelled as a record of the attributes passed to `vehicle`.
- The randomness of `random.shuffle`. The model performs its Fisher–Yates swaps with the random numbers supplied as `draws` (draw i reduced modulo i+1, like `randbelow(i+1)`). It does not state that every permutation is reachable.
- Missing keys and malformed values: the model takes typed parameters instead, so none of these errors is modelled. `generate_net` raises `KeyError` when a network parameter is missing. `makeRoutes` raises `KeyError` when `initial_params` lacks `"shuffle"` or `"positions"`; the `"positions"` lookup raises even when there are no vehicles. It raises `TypeError` or `IndexError` when `type_params[type]` is not indexable, and `ValueError` when a position cannot be unpacked into `(route, pos)`. `"%d"` raises on an infinite or NaN length, while `TruncateToInt` takes a finite `real`. `generate_cfg`'s time values are integers.
- `str(pos)` for the depart position: `departPos` is kept as the numeric value.
- The attributes of a vehicle type other than its count: `makeRoutes` does not read them.
- The order of the route table: it is taken to be the literal's insertion order, as Python 3.7+ dictionaries keep it.
- Network.ParseScenarioNameRoundTrip: holds only for a non-negative length and lane count. A minus sign can merge with the `-` separator: base `a-` with length 5 and base `a` with length −5 both give `a--5m…`.
