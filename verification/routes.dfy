/**
 * The route table and the rerouters of `CircleGenerator.generate_cfg`: four loop
 * routes, one starting at each edge, and two rerouters that are active over
 * the fixed interval [0, 100000] and send vehicles on edge `bottom` / `top` onto
 * the loop that starts there.
 */
module Routes {
  import opened Wrappers
  import opened Network
  import Words

  /** One loop route: the edge it is keyed by and the edges it visits, in order. */
  datatype Route = Route(key: Cardinal, edges: seq<Cardinal>)

  /** The route table, in the order its entries are written. */
  const RouteTable: seq<Route> := [
    Route(Top, [Top, Left, Bottom, Right]),
    Route(Left, [Left, Bottom, Right, Top]),
    Route(Bottom, [Bottom, Right, Top, Left]),
    Route(Right, [Right, Top, Left, Bottom])
  ]

  /** The common cyclic edge order all four routes are rotations of. */
  const LoopOrder: seq<Cardinal> := [Top, Left, Bottom, Right]

  /** `LoopOrder` rotated left by `k` places. */
  function Rotation(k: nat): (r: seq<Cardinal>)
    requires k < 4
    ensures |r| == 4 && r[0] == LoopOrder[k]
  {
    seq(4, i requires 0 <= i < 4 => LoopOrder[(k + i) % 4])
  }

  /** The first `n` edges met when driving the network from the start of edge `c`. */
  function Drive(c: Cardinal, n: nat): (r: seq<Cardinal>)
    ensures |r| == n
    ensures n > 0 ==> r[0] == c
    decreases n
  {
    if n == 0 then [] else [c] + Drive(Next(c), n - 1)
  }

  /** Consecutive edges of `r` meet at a node, and the last one leads back to the first. */
  predicate IsClosedWalk(r: seq<Cardinal>) {
    forall i :: 0 <= i < |r| ==> EdgeOf(r[i]).to == EdgeOf(r[(i + 1) % |r|]).from
  }

  /** The id of the route keyed by `c`: `"route" + key`. */
  function RouteId(c: Cardinal): string {
    "route" + Name(c)
  }

  /** Driving four edges from any edge brings the vehicle back to where it started. */
  lemma DriveIsClosedWalk(c: Cardinal)
    ensures IsClosedWalk(Drive(c, 4))
  {
    var r := Drive(c, 4);
    NextIsOneCycle(c);
    assert r == [c, Next(c), Next(Next(c)), Next(Next(Next(c)))];
    forall j | 0 <= j < 4
      ensures EdgeOf(r[j]).to == EdgeOf(r[(j + 1) % 4]).from
    {
      EdgeNamedAfterTail(r[(j + 1) % 4]);
      if j < 3 {
        assert r[(j + 1) % 4] == Next(r[j]);
      } else {
        assert r[(j + 1) % 4] == c == Next(r[j]);
      }
    }
  }

  /**
   * Route `i` starts at its key and is `top left bottom right` rotated left by
   * `i` places, so it visits every edge exactly once.
   */
  lemma RouteIsRotation(i: nat)
    requires i < |RouteTable|
    ensures var r := RouteTable[i].edges;
            && r[0] == RouteTable[i].key
            && r == Rotation(i)
  {
    if i == 0 {
      assert RouteTable[0].edges == Rotation(0);
    } else if i == 1 {
      assert RouteTable[1].edges == Rotation(1);
    } else if i == 2 {
      assert RouteTable[2].edges == Rotation(2);
    } else {
      assert RouteTable[3].edges == Rotation(3);
    }
  }

  /** Every route visits each of the four edges exactly once. */
  lemma RouteUsesEveryEdgeOnce(i: nat)
    requires i < |RouteTable|
    ensures multiset(RouteTable[i].edges) == multiset{Bottom, Right, Top, Left}
  {
  }

  /** Every route is a closed walk: each edge ends where the next begins, the last where the first begins. */
  lemma RouteIsClosedWalk(i: nat)
    requires i < |RouteTable|
    ensures IsClosedWalk(RouteTable[i].edges)
  {
    RouteTableFollowsNetwork();
    DriveIsClosedWalk(RouteTable[i].key);
  }

  /** The table has one route per edge: its keys are the four edges, each once. */
  lemma RouteTableKeys()
    ensures |RouteTable| == 4
    ensures forall i, j :: 0 <= i < 4 && 0 <= j < 4 && RouteTable[i].key == RouteTable[j].key ==> i == j
    ensures {RouteTable[0].key, RouteTable[1].key, RouteTable[2].key, RouteTable[3].key}
            == {Bottom, Right, Top, Left}
  {
  }

  /** Each route is exactly what driving four edges from its key through the network visits. */
  lemma RouteTableFollowsNetwork()
    ensures forall i :: 0 <= i < |RouteTable| ==> RouteTable[i].edges == Drive(RouteTable[i].key, 4)
  {
    assert Drive(Top, 4) == [Top, Left, Bottom, Right];
    assert Drive(Left, 4) == [Left, Bottom, Right, Top];
    assert Drive(Bottom, 4) == [Bottom, Right, Top, Left];
    assert Drive(Right, 4) == [Right, Top, Left, Bottom];
  }

  /** A `<route>` element: its id and its space-separated `edges` attribute. */
  datatype RouteElement = RouteElement(id: string, edges: string)

  function EdgeNames(r: seq<Cardinal>): (ns: seq<string>)
    ensures |ns| == |r| && forall i :: 0 <= i < |r| ==> ns[i] == Name(r[i])
  {
    seq(|r|, i requires 0 <= i < |r| => Name(r[i]))
  }

  /** The `<route>` elements of the additional file, one per table entry, in table order. */
  function RouteElements(): (es: seq<RouteElement>)
    ensures |es| == |RouteTable|
    ensures forall i :: 0 <= i < |es| ==> es[i].id == RouteId(RouteTable[i].key)
  {
    seq(|RouteTable|, i requires 0 <= i < |RouteTable| =>
      RouteElement(RouteId(RouteTable[i].key), Words.Join(EdgeNames(RouteTable[i].edges))))
  }

  /** The route elements exactly as `generate_cfg` writes them. */
  const WrittenRouteText: seq<RouteElement> := [
    RouteElement("routetop", "top left bottom right"),
    RouteElement("routeleft", "left bottom right top"),
    RouteElement("routebottom", "bottom right top left"),
    RouteElement("routeright", "right top left bottom")
  ]

  /** The `edges` text of route element `i` is its four edge names separated by single spaces. */
  lemma RouteElementEdgesText(i: nat, a: string, b: string, c: string, d: string)
    requires i < |RouteTable|
    requires EdgeNames(RouteTable[i].edges) == [a, b, c, d]
    ensures RouteElements()[i].edges == a + " " + b + " " + c + " " + d
  {
    Words.JoinFour(a, b, c, d);
  }

  lemma TopRouteText()
    ensures RouteElements()[0] == WrittenRouteText[0]
  {
    RouteElementEdgesText(0, "top", "left", "bottom", "right");
    assert "top" + " " + "left" == "top left";
    assert "top left" + " " + "bottom" == "top left bottom";
    assert "top left bottom" + " " + "right" == "top left bottom right";
  }

  lemma LeftRouteText()
    ensures RouteElements()[1] == WrittenRouteText[1]
  {
    RouteElementEdgesText(1, "left", "bottom", "right", "top");
    assert "left" + " " + "bottom" == "left bottom";
    assert "left bottom" + " " + "right" == "left bottom right";
    assert "left bottom right" + " " + "top" == "left bottom right top";
  }

  lemma BottomRouteText()
    ensures RouteElements()[2] == WrittenRouteText[2]
  {
    RouteElementEdgesText(2, "bottom", "right", "top", "left");
    assert "bottom" + " " + "right" == "bottom right";
    assert "bottom right" + " " + "top" == "bottom right top";
    assert "bottom right top" + " " + "left" == "bottom right top left";
  }

  lemma RightRouteText()
    ensures RouteElements()[3] == WrittenRouteText[3]
  {
    RouteElementEdgesText(3, "right", "top", "left", "bottom");
    assert "right" + " " + "top" == "right top";
    assert "right top" + " " + "left" == "right top left";
    assert "right top left" + " " + "bottom" == "right top left bottom";
  }

  /** The route elements, ids and `edges` texts, are exactly as `generate_cfg` writes them, in order. */
  lemma RouteElementsText()
    ensures RouteElements() == WrittenRouteText
  {
    TopRouteText();
    LeftRouteText();
    BottomRouteText();
    RightRouteText();
  }

  /** Splitting a route's `edges` attribute on spaces names exactly the route's edges, in order. */
  lemma RouteElementEdgesParse(i: nat)
    requires i < |RouteTable|
    ensures var ws := Words.Split(RouteElements()[i].edges);
            && |ws| == |RouteTable[i].edges|
            && forall k :: 0 <= k < |ws| ==> ParseCardinal(ws[k]) == Some(RouteTable[i].edges[k])
  {
    var r := RouteTable[i].edges;
    var ns := EdgeNames(r);
    forall k | 0 <= k < |ns|
      ensures Words.HasNoSpace(ns[k]) && ParseCardinal(ns[k]) == Some(r[k])
    {
      ParseCardinalName(r[k], ns[k]);
    }
    Words.SplitJoin(ns);
  }

  /** Route ids are pairwise distinct. */
  lemma RouteIdsDistinct()
    ensures forall i, j :: 0 <= i < j < |RouteElements()| ==> RouteElements()[i].id != RouteElements()[j].id
  {
    RouteElementsText();
  }

  // ---------------------------------------------------------------------
  // Rerouters

  /** A `<rerouter>` with its single `<interval>` and the `<routeProbReroute>` it holds. */
  datatype Rerouter = Rerouter(id: string, edges: string, begin: int, end: int, target: string)

  /** The nested helper `rerouter(name, frm, to)`: always the interval [0, 100000]. */
  function MakeRerouter(name: string, frm: string, to: string): (r: Rerouter)
    ensures r.id == name && r.edges == frm && r.target == to
    ensures r.begin == 0 && r.end == 100000
  {
    Rerouter(name, frm, 0, 100000, to)
  }

  const Rerouters: seq<Rerouter> := [
    MakeRerouter("rerouterBottom", "bottom", "routebottom"),
    MakeRerouter("rerouterTop", "top", "routetop")
  ]

  /**
   * Exactly two rerouters exist, on edges `bottom` and `top`, both active over
   * [0, 100000]; each targets the id of a route in the table, and that route is
   * the loop starting at the rerouter's own edge.
   */
  lemma RerouterTargets()
    ensures |Rerouters| == 2
    ensures Rerouters[0].id == "rerouterBottom" && ParseCardinal(Rerouters[0].edges) == Some(Bottom)
    ensures Rerouters[1].id == "rerouterTop" && ParseCardinal(Rerouters[1].edges) == Some(Top)
    ensures forall k :: 0 <= k < 2 ==>
              && Rerouters[k].begin == 0 && Rerouters[k].end == 100000
              && exists i :: 0 <= i < |RouteElements()|
                   && RouteElements()[i].id == Rerouters[k].target
                   && Some(RouteTable[i].edges[0]) == ParseCardinal(Rerouters[k].edges)
  {
    RouteElementsText();
    assert RouteElements()[2].id == Rerouters[0].target;
    assert RouteElements()[0].id == Rerouters[1].target;
  }
}
