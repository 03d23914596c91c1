/**
 * The circular network of `CircleGenerator.generate_net`: four cardinal nodes,
 * four edges joining neighbouring nodes into one directed loop, a single edge
 * type, the netconvert configuration that ties the files together, and the
 * scenario name `"%s-%dm%dl"` from which every file name is derived.
 * Coordinates and arc shapes (floating point, pi, cos, sin) are not modelled;
 * only the from/to topology and the exact edge length `length / 4` are.
 */
module Network {
  import opened Wrappers
  import opened Decimal
  import Words

  /** The four node ids, which double as the four edge ids. */
  datatype Cardinal = Bottom | Right | Top | Left

  /** The id written into the XML for a node or an edge. */
  function Name(c: Cardinal): string {
    match c
    case Bottom => "bottom"
    case Right => "right"
    case Top => "top"
    case Left => "left"
  }

  /** Reads an id back; anything but the four names is rejected. */
  function ParseCardinal(s: string): Option<Cardinal> {
    if s == "bottom" then Some(Bottom)
    else if s == "right" then Some(Right)
    else if s == "top" then Some(Top)
    else if s == "left" then Some(Left)
    else None
  }

  /** `Name` and `ParseCardinal` are inverse to each other, in both directions. */
  lemma ParseCardinalName(c: Cardinal, s: string)
    ensures ParseCardinal(s) == Some(c) <==> Name(c) == s
    ensures Words.HasNoSpace(Name(c))
  {
  }

  /** A node as written to the `.nod.xml` file; its coordinates are not modelled. */
  datatype Node = Node(id: Cardinal)

  /** The topology of one edge: its id and the nodes it leaves and enters. */
  datatype Edge = Edge(id: Cardinal, from: Cardinal, to: Cardinal)

  /** The nodes, in the order `generate_net` writes them. */
  const Nodes: seq<Node> := [Node(Bottom), Node(Right), Node(Top), Node(Left)]

  /** The edges, in the order `generate_net` writes them, with their from/to nodes. */
  const Edges: seq<Edge> := [
    Edge(Bottom, Bottom, Right),
    Edge(Right, Right, Top),
    Edge(Top, Top, Left),
    Edge(Left, Left, Bottom)
  ]

  /** The edge whose id is `c`. */
  function EdgeOf(c: Cardinal): (e: Edge)
    ensures e in Edges && e.id == c
  {
    match c
    case Bottom => Edges[0]
    case Right => Edges[1]
    case Top => Edges[2]
    case Left => Edges[3]
  }

  /** The node reached by driving along the edge named `c`. */
  function Next(c: Cardinal): Cardinal {
    EdgeOf(c).to
  }

  /** In list order every edge ends at the node where the next one starts, the last leading back to the first. */
  lemma EdgesChain()
    ensures |Edges| == 4
    ensures forall i :: 0 <= i < 3 ==> Edges[i].to == Edges[i + 1].from
    ensures Edges[3].to == Edges[0].from
  {
  }

  /** Edge ids are distinct, every node is left by exactly one edge and entered by exactly one edge. */
  lemma EdgeEndpointsDistinct()
    ensures forall i, j :: 0 <= i < j < |Edges| ==>
              Edges[i].id != Edges[j].id && Edges[i].from != Edges[j].from && Edges[i].to != Edges[j].to
  {
  }

  /** Each edge is named after the node it leaves, and that node is one of the written nodes. */
  lemma EdgeNamedAfterTail(c: Cardinal)
    ensures EdgeOf(c).from == c && Node(c) in Nodes
  {
  }

  /**
   * The edges form one directed 4-cycle bottom -> right -> top -> left -> bottom:
   * following edges from any node returns to it after four steps and not before.
   */
  lemma NextIsOneCycle(c: Cardinal)
    ensures Next(Next(Next(Next(c)))) == c
    ensures Next(c) != c && Next(Next(c)) != c && Next(Next(Next(c))) != c
  {
  }

  // ---------------------------------------------------------------------
  // Scenario name and the file names derived from it

  /** `"%s-%dm%dl" % (base, length, lanes)`; `%d` truncates a float length toward zero. */
  function ScenarioName(base: string, length: real, lanes: int): (r: string)
    ensures base + "-" <= r && r[|r| - 1] == 'l'
  {
    base + "-" + IntToString(TruncateToInt(length)) + "m" + IntToString(lanes) + "l"
  }

  /** A parsed scenario name: the base and the two numbers. */
  datatype NameParts = NameParts(base: string, length: nat, lanes: nat)

  /**
   * Reads a scenario name from its end: `l`, the lane digits, `m`, the length
   * digits, `-`, and whatever remains is the base.
   */
  function ParseScenarioName(s: string): Option<NameParts> {
    if |s| == 0 || s[|s| - 1] != 'l' then None
    else
      match ParseNumberedSuffix(s[..|s| - 1], 'm')
      case None => None
      case Some((p, lanes)) =>
        match ParseNumberedSuffix(p, '-')
        case None => None
        case Some((base, length)) => Some(NameParts(base, length, lanes))
  }

  /** The parser recovers base and numbers from a name assembled from non-negative numbers. */
  lemma ParseAssembledName(base: string, n: nat, lanes: nat)
    ensures ParseScenarioName(base + "-" + NatToString(n) + "m" + NatToString(lanes) + "l")
            == Some(NameParts(base, n, lanes))
  {
    var s := base + "-" + NatToString(n) + "m" + NatToString(lanes) + "l";
    var p := base + ['-'] + NatToString(n);
    assert s == (p + ['m'] + NatToString(lanes)) + ['l'];
    assert s[..|s| - 1] == p + ['m'] + NatToString(lanes);
    ParseNumberedSuffixOf(p, 'm', lanes);
    ParseNumberedSuffixOf(base, '-', n);
  }

  /**
   * For a non-negative length and lane count the scenario name determines the
   * base, the truncated length and the lane count, whatever characters the base holds.
   */
  lemma ParseScenarioNameRoundTrip(base: string, length: real, lanes: int)
    requires 0.0 <= length && 0 <= lanes
    ensures ParseScenarioName(ScenarioName(base, length, lanes))
            == Some(NameParts(base, TruncateToInt(length), lanes))
  {
    var n: nat := TruncateToInt(length);
    assert ScenarioName(base, length, lanes) == base + "-" + NatToString(n) + "m" + NatToString(lanes) + "l";
    ParseAssembledName(base, n, lanes);
  }

  /** Two scenarios with non-negative sizes share a name only if base, truncated length and lanes agree. */
  lemma ScenarioNameInjective(b1: string, l1: real, n1: int, b2: string, l2: real, n2: int)
    requires 0.0 <= l1 && 0 <= n1 && 0.0 <= l2 && 0 <= n2
    requires ScenarioName(b1, l1, n1) == ScenarioName(b2, l2, n2)
    ensures b1 == b2 && TruncateToInt(l1) == TruncateToInt(l2) && n1 == n2
  {
    ParseScenarioNameRoundTrip(b1, l1, n1);
    ParseScenarioNameRoundTrip(b2, l2, n2);
  }

  /** Appending two different suffixes of equal length to one name gives different file names. */
  lemma DistinctSuffixes(name: string, a: string, b: string)
    requires |a| == |b| && a != b
    ensures name + a != name + b
  {
    var i :| 0 <= i < |a| && a[i] != b[i];
    assert (name + a)[|name| + i] == a[i];
    assert (name + b)[|name| + i] == b[i];
  }

  /** `p + f == q + f` exactly when `p == q`. */
  lemma CommonSuffixCancels(p: string, q: string, f: string)
    ensures p + f == q + f <==> p == q
  {
    if p + f == q + f {
      assert |p| == |q|;
      assert (p + f)[..|p|] == p && (q + f)[..|q|] == q;
    }
  }

  // ---------------------------------------------------------------------
  // generate_net

  /** The shared lane/speed profile of all four edges. */
  datatype EdgeType = EdgeType(id: string, numLanes: int, speed: real)

  /** An edge as written to the `.edg.xml` file (its shape polyline is not modelled). */
  datatype EdgeElement = EdgeElement(edge: Edge, edgeType: string, length: real)

  /** The netconvert configuration: input files, output file, and the two processing flags. */
  datatype NetconvertConfig = NetconvertConfig(
    nodeFiles: string, edgeFiles: string, typeFiles: string,
    outputFile: string, noInternalLinks: bool, noTurnarounds: bool)

  /** What `generate_net` leaves on the generator for `generate_cfg`: the scenario name and the net file name. */
  datatype NetContext = NetContext(name: string, netfn: string)

  /** The five file names `generate_net` derives from the scenario name by suffix. */
  datatype NetFiles = NetFiles(nodfn: string, edgfn: string, typfn: string, cfgfn: string, netfn: string)

  function NetFilesOf(name: string): (f: NetFiles)
    ensures name <= f.nodfn && name <= f.edgfn && name <= f.typfn && name <= f.cfgfn && name <= f.netfn
  {
    NetFiles(name + ".nod.xml", name + ".edg.xml", name + ".typ.xml", name + ".netccfg", name + ".net.xml")
  }

  /** No two of the derived file names coincide, with or without a common directory prefix. */
  lemma NetFilesDistinct(dir: string, name: string)
    ensures var f := NetFilesOf(name);
            var ps := [dir + f.nodfn, dir + f.edgfn, dir + f.typfn, dir + f.cfgfn, dir + f.netfn];
            && (forall i, j :: 0 <= i < j < 5 ==> ps[i] != ps[j])
            && (forall i :: 0 <= i < 5 ==> dir + name <= ps[i])
  {
    var f := NetFilesOf(name);
    var ss := [".nod.xml", ".edg.xml", ".typ.xml", ".netccfg", ".net.xml"];
    var ps := [dir + f.nodfn, dir + f.edgfn, dir + f.typfn, dir + f.cfgfn, dir + f.netfn];
    forall i, j | 0 <= i < j < 5
      ensures ps[i] != ps[j]
    {
      assert ps[i] == (dir + name) + ss[i] && ps[j] == (dir + name) + ss[j];
      DistinctSuffixes(dir + name, ss[i], ss[j]);
    }
    forall i | 0 <= i < 5
      ensures dir + name <= ps[i]
    {
      assert ps[i] == (dir + name) + ss[i];
    }
  }

  /** Everything `generate_net` produces: the file contents, the files in write order, the tool command, its result. */
  datatype NetArtifacts = NetArtifacts(
    nodes: seq<Node>,
    edges: seq<EdgeElement>,
    edgeType: EdgeType,
    netconvert: NetconvertConfig,
    written: seq<string>,
    command: string,
    context: NetContext,
    netFile: string)

  const EdgeTypeId: string := "edgeType"

  /**
   * `generate_net`: names the scenario, writes the node, edge, type and netconvert
   * configuration files under `netPath`, runs netconvert (its exit status is not
   * looked at), and returns the net file's path.
   */
  function GenerateNet(base: string, length: real, lanes: int, speedLimit: real,
                       netPath: string, cfgPath: string): (a: NetArtifacts)
    ensures a.context.name == ScenarioName(base, length, lanes)
    ensures var f := NetFilesOf(a.context.name);
            && a.written == [netPath + f.nodfn, netPath + f.edgfn, netPath + f.typfn, netPath + f.cfgfn]
            && a.netFile == netPath + f.netfn
    // the files netconvert reads are exactly the files written before it, and it writes the net file
    ensures |a.written| == 4
    ensures a.written[..3] == [netPath + a.netconvert.nodeFiles, netPath + a.netconvert.edgeFiles,
                               netPath + a.netconvert.typeFiles]
    ensures a.netconvert.outputFile == a.context.netfn
    ensures a.netconvert.noInternalLinks && a.netconvert.noTurnarounds
    // the command runs netconvert on the configuration written last
    ensures a.command == "netconvert -c " + a.written[3] + " --output-file=" + cfgPath + a.context.netfn
    ensures a.netFile == netPath + a.context.netfn
    // the network itself: four nodes, the four cycle edges, each a quarter of the circle, one shared type
    ensures a.nodes == Nodes
    ensures |a.edges| == 4
    ensures forall i :: 0 <= i < 4 ==>
              a.edges[i].edge == Edges[i] && a.edges[i].edgeType == a.edgeType.id
              && 4.0 * a.edges[i].length == length
    ensures a.edgeType == EdgeType(EdgeTypeId, lanes, speedLimit)
  {
    var name := ScenarioName(base, length, lanes);
    var f := NetFilesOf(name);
    var edgelen := length / 4.0;
    NetArtifacts(
      Nodes,
      seq(4, i requires 0 <= i < 4 => EdgeElement(Edges[i], EdgeTypeId, edgelen)),
      EdgeType(EdgeTypeId, lanes, speedLimit),
      NetconvertConfig(f.nodfn, f.edgfn, f.typfn, f.netfn, true, true),
      [netPath + f.nodfn, netPath + f.edgfn, netPath + f.typfn, netPath + f.cfgfn],
      "netconvert -c " + netPath + f.cfgfn + " --output-file=" + cfgPath + f.netfn,
      NetContext(name, f.netfn),
      netPath + f.netfn)
  }

  /** When two strings end in suffixes of equal length, they can only be equal if the suffixes are. */
  lemma EqualLengthSuffixes(p: string, q: string, a: string, b: string)
    requires |a| == |b|
    ensures p + a == q + b ==> a == b
  {
    if p + a == q + b {
      assert (p + a)[|p|..] == a && (q + b)[|q|..] == b;
    }
  }

  /**
   * The files `generate_net` writes are named after the scenario and pairwise
   * distinct. None of them is the path it returns, nor the net file netconvert
   * is told to write under `cfgPath`, whatever the two directories are.
   */
  lemma GenerateNetFilesDistinct(base: string, length: real, lanes: int, speedLimit: real,
                                 netPath: string, cfgPath: string)
    ensures var a := GenerateNet(base, length, lanes, speedLimit, netPath, cfgPath);
            && (forall i :: 0 <= i < 4 ==> netPath + a.context.name <= a.written[i])
            && (forall i, j :: 0 <= i < j < 4 ==> a.written[i] != a.written[j])
            && a.netFile !in a.written
            && cfgPath + a.netconvert.outputFile !in a.written
  {
    var a := GenerateNet(base, length, lanes, speedLimit, netPath, cfgPath);
    var name := a.context.name;
    var f := NetFilesOf(name);
    NetFilesDistinct(netPath, name);
    var ps := [netPath + f.nodfn, netPath + f.edgfn, netPath + f.typfn, netPath + f.cfgfn, netPath + f.netfn];
    assert a.written == ps[..4] && a.netFile == ps[4];
    ToolOutputNotAmong(netPath, cfgPath, name);
  }

  /** The net file under `cfgPath` is none of the four input files under `netPath`, for any two directories. */
  lemma ToolOutputNotAmong(netPath: string, cfgPath: string, name: string)
    ensures var f := NetFilesOf(name);
            cfgPath + f.netfn !in [netPath + f.nodfn, netPath + f.edgfn, netPath + f.typfn, netPath + f.cfgfn]
  {
    var f := NetFilesOf(name);
    var ws := [netPath + f.nodfn, netPath + f.edgfn, netPath + f.typfn, netPath + f.cfgfn];
    var ss := [".nod.xml", ".edg.xml", ".typ.xml", ".netccfg"];
    var out := (cfgPath + name) + ".net.xml";
    forall i | 0 <= i < 4
      ensures ws[i] != out
    {
      assert ws[i] == (netPath + name) + ss[i];
      EqualLengthSuffixes(netPath + name, cfgPath + name, ss[i], ".net.xml");
    }
  }

  /** The four edge lengths add up to the circumference the caller asked for. */
  lemma EdgeLengthsSumToLength(base: string, length: real, lanes: int, speedLimit: real,
                               netPath: string, cfgPath: string)
    ensures var es := GenerateNet(base, length, lanes, speedLimit, netPath, cfgPath).edges;
            es[0].length + es[1].length + es[2].length + es[3].length == length
  {
  }

  /**
   * The path `generate_net` returns names the file netconvert was told to write
   * exactly when the net and configuration directories coincide: the tool writes
   * under `cfgPath`, the return value points under `netPath`.
   */
  lemma ReturnedPathIsToolOutput(base: string, length: real, lanes: int, speedLimit: real,
                                 netPath: string, cfgPath: string)
    ensures var a := GenerateNet(base, length, lanes, speedLimit, netPath, cfgPath);
            a.netFile == cfgPath + a.netconvert.outputFile <==> netPath == cfgPath
  {
    var a := GenerateNet(base, length, lanes, speedLimit, netPath, cfgPath);
    CommonSuffixCancels(netPath, cfgPath, a.context.netfn);
  }
}
