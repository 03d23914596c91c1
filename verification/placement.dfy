/**
 * `CircleGenerator.makeRoutes`: expands the vehicle types and their counts into
 * the ordered list of `(type, id)` pairs, optionally shuffles it, and pairs it
 * position by position with the caller's `(route, departPos)` list.
 * The shuffle is `random.shuffle`'s Fisher-Yates pass with its random numbers
 * supplied by the caller.
 */
module Placement {
  import opened Wrappers
  import opened Decimal

  /** One entry of the type parameters: a type's name and its count (the other attributes are not read). */
  datatype TypeParam = TypeParam(name: string, count: int)

  /** The type parameters are a dictionary: no name occurs twice. */
  predicate DistinctNames(ts: seq<TypeParam>) {
    forall i, j :: 0 <= i < j < |ts| ==> ts[i].name != ts[j].name
  }

  /** A vehicle before placement: its type and its id. */
  datatype VehicleKey = VehicleKey(vtype: string, id: string)

  /** The id of the `i`-th vehicle of type `t`: `t + "_" + str(i)`. */
  function VehicleId(t: string, i: nat): (r: string)
    ensures t + "_" <= r && |r| > |t| + 1
  {
    t + "_" + NatToString(i)
  }

  /** A vehicle id can be read back into its type and index, whatever the type's name. */
  lemma VehicleIdRoundTrip(t: string, i: nat)
    ensures ParseNumberedSuffix(VehicleId(t, i), '_') == Some((t, i))
  {
    assert VehicleId(t, i) == t + ['_'] + NatToString(i);
    ParseNumberedSuffixOf(t, '_', i);
  }

  /** Two vehicle ids coincide exactly when type and index do. */
  lemma VehicleIdInjective(t1: string, i1: nat, t2: string, i2: nat)
    ensures VehicleId(t1, i1) == VehicleId(t2, i2) <==> t1 == t2 && i1 == i2
  {
    VehicleIdRoundTrip(t1, i1);
    VehicleIdRoundTrip(t2, i2);
  }

  /** `[(t, t_0), …, (t, t_{count-1})]`; empty when `count <= 0`, as `range(count)` is. */
  function KeysOfType(t: string, count: int): (ks: seq<VehicleKey>)
    ensures |ks| == if count > 0 then count else 0
    ensures forall i :: 0 <= i < |ks| ==> ks[i] == VehicleKey(t, VehicleId(t, i))
    decreases count
  {
    if count <= 0 then [] else KeysOfType(t, count - 1) + [VehicleKey(t, VehicleId(t, count - 1))]
  }

  /** The number of vehicles the types ask for; a non-positive count contributes none. */
  function TotalCount(ts: seq<TypeParam>): nat {
    if ts == [] then 0 else (if ts[0].count > 0 then ts[0].count else 0) + TotalCount(ts[1..])
  }

  /** The keys of all types, type after type in the dictionary's order. */
  function Enumerate(ts: seq<TypeParam>): (ks: seq<VehicleKey>)
    ensures |ks| == TotalCount(ts)
  {
    if ts == [] then [] else KeysOfType(ts[0].name, ts[0].count) + Enumerate(ts[1..])
  }

  /** The list `makeRoutes` builds before shuffling: every type's keys when `num_cars > 0`, nothing otherwise. */
  function VehicleIds(ts: seq<TypeParam>, numCars: int): (ks: seq<VehicleKey>)
    ensures numCars <= 0 ==> ks == []
    ensures numCars > 0 ==> |ks| == TotalCount(ts)
  {
    if numCars > 0 then Enumerate(ts) else []
  }

  /**
   * Enumeration order: the `i`-th vehicle of type `ts[j]` sits right after all
   * vehicles of the types before it.
   */
  lemma {:induction false} EnumerateOrder(ts: seq<TypeParam>, j: nat, i: nat)
    requires j < |ts| && i < ts[j].count
    ensures TotalCount(ts[..j]) + i < |Enumerate(ts)|
    ensures Enumerate(ts)[TotalCount(ts[..j]) + i] == VehicleKey(ts[j].name, VehicleId(ts[j].name, i))
  {
    var head := KeysOfType(ts[0].name, ts[0].count);
    assert Enumerate(ts) == head + Enumerate(ts[1..]);
    if j > 0 {
      EnumerateOrder(ts[1..], j - 1, i);
      assert ts[..j] == [ts[0]] + ts[1..][..j - 1];
      assert ts[..j][1..] == ts[1..][..j - 1];
      assert TotalCount(ts[..j]) == |head| + TotalCount(ts[1..][..j - 1]);
    } else {
      assert ts[..0] == [];
    }
  }

  /**
   * A key is enumerated exactly when some type `ts[j]` has it as its `i`-th
   * vehicle for an `i` below that type's count.
   */
  lemma {:induction false} EnumerateMembership(ts: seq<TypeParam>, k: VehicleKey)
    ensures k in Enumerate(ts) <==>
            exists j, i :: 0 <= j < |ts| && 0 <= i < ts[j].count
                           && k == VehicleKey(ts[j].name, VehicleId(ts[j].name, i))
  {
    if ts != [] {
      EnumerateMembership(ts[1..], k);
      var head := KeysOfType(ts[0].name, ts[0].count);
      assert Enumerate(ts) == head + Enumerate(ts[1..]);
      if k in head {
        var i :| 0 <= i < |head| && head[i] == k;
        assert 0 <= 0 < |ts| && 0 <= i < ts[0].count
               && k == VehicleKey(ts[0].name, VehicleId(ts[0].name, i));
      }
      if exists j, i :: 0 <= j < |ts| && 0 <= i < ts[j].count
                        && k == VehicleKey(ts[j].name, VehicleId(ts[j].name, i)) {
        var j, i :| 0 <= j < |ts| && 0 <= i < ts[j].count
                    && k == VehicleKey(ts[j].name, VehicleId(ts[j].name, i));
        if j == 0 {
          assert head[i] == k;
        } else {
          assert ts[1..][j - 1] == ts[j];
        }
      }
    }
  }

  /** No two keys of a list share an id. */
  predicate IdsDistinct(ks: seq<VehicleKey>) {
    forall a, b :: 0 <= a < b < |ks| ==> ks[a].id != ks[b].id
  }

  /** When type names are distinct, every enumerated vehicle id is distinct. */
  lemma {:induction false} EnumerateIdsDistinct(ts: seq<TypeParam>)
    requires DistinctNames(ts)
    ensures IdsDistinct(Enumerate(ts))
  {
    if ts != [] {
      var head := KeysOfType(ts[0].name, ts[0].count);
      var tail := Enumerate(ts[1..]);
      var ks := Enumerate(ts);
      assert ks == head + tail;
      assert DistinctNames(ts[1..]);
      EnumerateIdsDistinct(ts[1..]);
      forall a, b | 0 <= a < b < |ks|
        ensures ks[a].id != ks[b].id
      {
        if b < |head| {
          VehicleIdInjective(ts[0].name, a, ts[0].name, b);
        } else if a >= |head| {
          assert ks[a] == tail[a - |head|] && ks[b] == tail[b - |head|];
        } else {
          assert ks[b] == tail[b - |head|];
          EnumerateMembership(ts[1..], ks[b]);
          var j, i :| 0 <= j < |ts[1..]| && 0 <= i < ts[1..][j].count
                      && ks[b] == VehicleKey(ts[1..][j].name, VehicleId(ts[1..][j].name, i));
          assert ts[1..][j] == ts[j + 1];
          VehicleIdInjective(ts[0].name, a, ts[j + 1].name, i);
        }
      }
    }
  }

  // ---------------------------------------------------------------------
  // Shuffling

  /** Exchanges the elements at `i` and `j`. */
  function Swap<T>(s: seq<T>, i: nat, j: nat): (r: seq<T>)
    requires i < |s| && j < |s|
    ensures |r| == |s| && r[i] == s[j] && r[j] == s[i]
    ensures forall k :: 0 <= k < |s| && k != i && k != j ==> r[k] == s[k]
    ensures multiset(r) == multiset(s)
  {
    s[i := s[j]][j := s[i]]
  }

  /**
   * The first `n` rounds still to do of Fisher-Yates: for position `n - 1` down
   * to 1, swap it with position `draws[n - 1] % n`, i.e. `randbelow(n)`.
   */
  function ShuffleRounds<T>(s: seq<T>, draws: seq<nat>, n: nat): (r: seq<T>)
    requires n <= |s| && |draws| == |s|
    ensures |r| == |s| && multiset(r) == multiset(s)
    decreases n
  {
    if n <= 1 then s else ShuffleRounds(Swap(s, n - 1, draws[n - 1] % n), draws, n - 1)
  }

  /** `random.shuffle(s)` with the random numbers it would draw given as `draws`. */
  function Shuffle<T>(s: seq<T>, draws: seq<nat>): (r: seq<T>)
    requires |draws| == |s|
    ensures |r| == |s| && multiset(r) == multiset(s)
  {
    ShuffleRounds(s, draws, |s|)
  }

  // ---------------------------------------------------------------------
  // Placement

  /** An entry of the caller's positions list: a route key and a depart position. */
  datatype Position = Position(route: string, pos: real)

  /** A `<vehicle>` element. */
  datatype Vehicle = Vehicle(vtype: string, route: string, depart: string, departSpeed: string,
                             departPos: real, id: string, color: string)

  /** A `<vType>` element. */
  datatype VType = VType(id: string, minGap: string)

  /** The route file: the vehicle types, then the vehicles. */
  datatype RoutesFile = RoutesFile(vtypes: seq<VType>, vehicles: seq<Vehicle>)

  /** `positions[i]` raised `IndexError` because the list has only `index` entries. */
  datatype PlacementError = PositionIndexOutOfRange(index: nat)

  /** The vehicle record for key `k` placed at `p`: depart and speed 0, red, route `"route" + p.route`. */
  function PlaceVehicle(k: VehicleKey, p: Position): (v: Vehicle)
    ensures v.vtype == k.vtype && v.id == k.id
    ensures v.route == "route" + p.route && v.departPos == p.pos
    ensures v.depart == "0" && v.departSpeed == "0" && v.color == "1,0.0,0.0"
  {
    Vehicle(k.vtype, "route" + p.route, "0", "0", p.pos, k.id, "1,0.0,0.0")
  }

  /** The type and id of each vehicle. */
  function KeysOf(vs: seq<Vehicle>): (ks: seq<VehicleKey>)
    ensures |ks| == |vs| && forall k :: 0 <= k < |vs| ==> ks[k] == VehicleKey(vs[k].vtype, vs[k].id)
  {
    seq(|vs|, k requires 0 <= k < |vs| => VehicleKey(vs[k].vtype, vs[k].id))
  }

  /**
   * The loop over `enumerate(vehicle_ids)` from index `i` on: key `k` takes
   * `positions[k]`, and the first index past the end of `positions` raises.
   */
  function PlaceFrom(ks: seq<VehicleKey>, positions: seq<Position>, i: nat): (r: Result<seq<Vehicle>, PlacementError>)
    requires i <= |ks| && i <= |positions|
    ensures r.Failure? <==> |positions| < |ks|
    ensures r.Failure? ==> r.error == PositionIndexOutOfRange(|positions|)
    ensures r.Success? ==>
              && |r.value| == |ks| - i
              && forall k :: i <= k < |ks| ==> k < |positions| && r.value[k - i] == PlaceVehicle(ks[k], positions[k])
    decreases |ks| - i
  {
    if i == |ks| then Success([])
    else if i == |positions| then Failure(PositionIndexOutOfRange(i))
    else
      match PlaceFrom(ks, positions, i + 1)
      case Failure(e) => Failure(e)
      case Success(vs) => Success([PlaceVehicle(ks[i], positions[i])] + vs)
  }

  /** The whole loop: vehicle `k` is key `k` at position `k`, or the list of positions runs out. */
  function PlaceAll(ks: seq<VehicleKey>, positions: seq<Position>): (r: Result<seq<Vehicle>, PlacementError>)
    ensures r.Failure? <==> |positions| < |ks|
    ensures r.Failure? ==> r.error == PositionIndexOutOfRange(|positions|)
    ensures r.Success? ==>
              && KeysOf(r.value) == ks
              && forall k :: 0 <= k < |ks| ==> r.value[k] == PlaceVehicle(ks[k], positions[k])
  {
    var r := PlaceFrom(ks, positions, 0);
    if r.Success? then
      assert KeysOf(r.value) == ks;
      r
    else r
  }

  /**
   * `makeRoutes`. With no types nothing is written. Otherwise the route file
   * declares every type with `minGap="0"` and holds one vehicle per key, the
   * `k`-th taking the `k`-th position; the keys come in enumeration order, or
   * shuffled (the same keys, rearranged) when `shuffle` is set. Too few positions
   * raise before the file is written.
   */
  function MakeRoutes(types: seq<TypeParam>, numCars: int, shuffle: bool, draws: seq<nat>,
                      positions: seq<Position>): (r: Result<Option<RoutesFile>, PlacementError>)
    requires shuffle ==> |draws| == |VehicleIds(types, numCars)|
    ensures types == [] ==> r == Success(None)
    ensures types != [] ==> (r.Failure? <==> |positions| < |VehicleIds(types, numCars)|)
    ensures r.Failure? ==> r.error == PositionIndexOutOfRange(|positions|)
    ensures r.Success? && types != [] ==>
              r.value.Some? &&
              var f := r.value.value;
              var ids := VehicleIds(types, numCars);
              && |f.vtypes| == |types|
              && (forall i :: 0 <= i < |types| ==> f.vtypes[i] == VType(types[i].name, "0"))
              && |f.vehicles| == |ids|
              && (forall k :: 0 <= k < |f.vehicles| ==>
                    && f.vehicles[k].route == "route" + positions[k].route
                    && f.vehicles[k].departPos == positions[k].pos
                    && f.vehicles[k].depart == "0" && f.vehicles[k].departSpeed == "0"
                    && f.vehicles[k].color == "1,0.0,0.0")
              && multiset(KeysOf(f.vehicles)) == multiset(ids)
              && (!shuffle ==> KeysOf(f.vehicles) == ids)
  {
    if types == [] then Success(None)
    else
      var vtypes := seq(|types|, i requires 0 <= i < |types| => VType(types[i].name, "0"));
      var ids := VehicleIds(types, numCars);
      var order := if shuffle then Shuffle(ids, draws) else ids;
      match PlaceAll(order, positions)
      case Failure(e) => Failure(e)
      case Success(vehicles) => Success(Some(RoutesFile(vtypes, vehicles)))
  }

  /** In a list without repetitions every element occurs exactly once. */
  lemma {:induction false} DistinctCountsOne<T>(s: seq<T>)
    requires forall a, b :: 0 <= a < b < |s| ==> s[a] != s[b]
    ensures forall x :: x in s ==> multiset(s)[x] == 1
  {
    if s != [] {
      var rest := s[1..];
      assert s == [s[0]] + rest;
      DistinctCountsOne(rest);
      forall b | 0 <= b < |rest|
        ensures rest[b] != s[0]
      {
        assert rest[b] == s[b + 1];
      }
    }
  }

  /** An element found at two different indices occurs at least twice. */
  lemma RepeatCountsTwo<T>(s: seq<T>, a: nat, b: nat)
    requires a < b < |s|
    ensures s[a] == s[b] ==> multiset(s)[s[a]] >= 2
  {
    assert s == s[..a] + [s[a]] + s[a + 1..b] + [s[b]] + s[b + 1..];
  }

  /**
   * Rearranging a list whose ids are distinct keeps them distinct, and leaves
   * every original key present exactly once.
   */
  lemma PermutationKeepsIdsDistinct(ids: seq<VehicleKey>, order: seq<VehicleKey>)
    requires IdsDistinct(ids)
    requires multiset(order) == multiset(ids)
    ensures IdsDistinct(order)
    ensures forall j :: 0 <= j < |ids| ==> multiset(order)[ids[j]] == 1
  {
    DistinctCountsOne(ids);
    forall j | 0 <= j < |ids|
      ensures multiset(order)[ids[j]] == 1
    {
      assert ids[j] in ids;
    }
    forall a, b | 0 <= a < b < |order|
      ensures order[a].id != order[b].id
    {
      assert order[a] in multiset(ids) && order[b] in multiset(ids);
      var p :| 0 <= p < |ids| && ids[p] == order[a];
      var q :| 0 <= q < |ids| && ids[q] == order[b];
      RepeatCountsTwo(order, a, b);
      assert multiset(order)[ids[p]] == 1;
      assert order[a] != order[b] && p != q;
      assert ids[p].id != ids[q].id by {
        if p < q {
          assert ids[p].id != ids[q].id;
        } else {
          assert ids[q].id != ids[p].id;
        }
      }
    }
  }

  /**
   * With distinct type names, a written route file gives every vehicle its own id,
   * and every enumerated `(type, id)` pair, shuffled or not, is paired with
   * exactly one position.
   */
  lemma PlacementIsOneToOne(types: seq<TypeParam>, numCars: int, shuffle: bool, draws: seq<nat>,
                            positions: seq<Position>)
    requires DistinctNames(types)
    requires shuffle ==> |draws| == |VehicleIds(types, numCars)|
    requires MakeRoutes(types, numCars, shuffle, draws, positions).Success?
    requires types != []
    ensures var vs := MakeRoutes(types, numCars, shuffle, draws, positions).value.value.vehicles;
            var ids := VehicleIds(types, numCars);
            && (forall a, b :: 0 <= a < b < |vs| ==> vs[a].id != vs[b].id)
            && (forall j :: 0 <= j < |ids| ==> multiset(KeysOf(vs))[ids[j]] == 1)
  {
    var vs := MakeRoutes(types, numCars, shuffle, draws, positions).value.value.vehicles;
    var ids := VehicleIds(types, numCars);
    if numCars > 0 {
      EnumerateIdsDistinct(types);
    }
    PermutationKeepsIdsDistinct(ids, KeysOf(vs));
  }

  /** Two types of two vehicles each enumerate as `a_0`, `a_1`, `b_0`, `b_1`. */
  lemma TwoTypesEnumeration()
    ensures VehicleIds([TypeParam("a", 2), TypeParam("b", 2)], 4)
            == [VehicleKey("a", "a_0"), VehicleKey("a", "a_1"), VehicleKey("b", "b_0"), VehicleKey("b", "b_1")]
  {
    var ts := [TypeParam("a", 2), TypeParam("b", 2)];
    assert ts[1..] == [TypeParam("b", 2)];
    assert NatToString(0) == "0" && NatToString(1) == "1";
    assert VehicleId("a", 0) == "a_0" && VehicleId("a", 1) == "a_1";
    assert VehicleId("b", 0) == "b_0" && VehicleId("b", 1) == "b_1";
    assert KeysOfType("a", 2) == [VehicleKey("a", "a_0"), VehicleKey("a", "a_1")];
    assert KeysOfType("b", 2) == [VehicleKey("b", "b_0"), VehicleKey("b", "b_1")];
  }

  /**
   * Without shuffling, those four vehicles take the four positions in order:
   * `a_0` on route `"route" + "top"` at 5, ..., `b_1` on route `"route" + "right"` at 20.
   */
  lemma TwoTypesExample()
    ensures var r := MakeRoutes([TypeParam("a", 2), TypeParam("b", 2)], 4, false, [],
                                [Position("top", 5.0), Position("left", 10.0),
                                 Position("bottom", 15.0), Position("right", 20.0)]);
            && r.Success? && r.value.Some?
            && KeysOf(r.value.value.vehicles)
               == [VehicleKey("a", "a_0"), VehicleKey("a", "a_1"), VehicleKey("b", "b_0"), VehicleKey("b", "b_1")]
            && r.value.value.vehicles[0].route == "route" + "top" && r.value.value.vehicles[0].departPos == 5.0
            && r.value.value.vehicles[3].route == "route" + "right" && r.value.value.vehicles[3].departPos == 20.0
  {
    TwoTypesEnumeration();
  }
}
