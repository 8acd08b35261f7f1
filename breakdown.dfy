/**
 * What `TEManager.generate_connection_breakdown` computes from a solver's
 * path: the links grouped into one run per domain, the ingress and egress
 * port of each domain's segment, and the VLAN-tagged record of each
 * segment; and the lookups of `generate_traffic_matrix`. The class
 * `TE.TEManager` runs the loops; the functions here say what they compute.
 */
module Breakdown {
  import opened Wrappers
  import opened Exceptions
  import opened OrderedMaps
  import opened TopologyModel
  import Strings
  import Numerals
  import Interdomain
  import Merge
  import VlanTables

  /** A link of the solver's path, between two vertices of the graph. */
  datatype ConnectionPath = ConnectionPath(source: int, destination: int)

  /** The domain (stored topology id) of a node, `None` when no stored topology has it. */
  type DomainId = Option<string>

  /**
   * `graph.nodes.get(v)["id"]`: the graph's vertices are numbered from 0,
   * and `vertices[v]` is the id of the node vertex `v` stands for.
   */
  function VertexNode(vertices: seq<string>, v: int): (r: Option<string>)
    ensures r.Some? <==> 0 <= v < |vertices|
  {
    if 0 <= v < |vertices| then Some(vertices[v]) else None
  }

  // ---------------------------------------------------------------------
  // The graph's vertices
  // ---------------------------------------------------------------------

  /** `graph.add_edge(u, v)` adds `u` then `v` as vertices, each unless it is already one. */
  function AddVertex(vertices: seq<string>, node: string): seq<string> {
    if node in vertices then vertices else vertices + [node]
  }

  /**
   * The vertices of the graph built from the edges, numbered in the order
   * they first appear, as `convert_node_labels_to_integers` numbers them.
   */
  function Vertices(edges: seq<Merge.Edge>): seq<string>
    decreases |edges|
  {
    if |edges| == 0 then []
    else
      var e := edges[|edges| - 1];
      AddVertex(AddVertex(Vertices(edges[..|edges| - 1]), e.u), e.v)
  }

  /** The vertices are exactly the nodes at an end of some edge. */
  lemma {:induction false} VerticesExact(edges: seq<Merge.Edge>, x: string)
    ensures x in Vertices(edges) <==> exists i | 0 <= i < |edges| :: x == edges[i].u || x == edges[i].v
    decreases |edges|
  {
    if |edges| > 0 {
      var n := |edges| - 1;
      VerticesExact(edges[..n], x);
      TouchesSnoc(edges, x);
    }
  }

  /** A node is at an end of some edge exactly when it is at an end of an earlier edge or of the last one. */
  lemma TouchesSnoc(edges: seq<Merge.Edge>, x: string)
    requires |edges| > 0
    ensures var n := |edges| - 1;
      (exists i | 0 <= i < |edges| :: x == edges[i].u || x == edges[i].v)
      <==> (exists i | 0 <= i < n :: x == edges[..n][i].u || x == edges[..n][i].v) || x == edges[n].u || x == edges[n].v
  {
    var n := |edges| - 1;
    if exists i | 0 <= i < |edges| :: x == edges[i].u || x == edges[i].v {
      var i :| 0 <= i < |edges| && (x == edges[i].u || x == edges[i].v);
      if i < n {
        assert edges[..n][i] == edges[i];
      }
    }
    if exists i | 0 <= i < n :: x == edges[..n][i].u || x == edges[..n][i].v {
      var i :| 0 <= i < n && (x == edges[..n][i].u || x == edges[..n][i].v);
      assert edges[..n][i] == edges[i];
    }
  }

  /** No node stands for two vertices. */
  lemma {:induction false} VerticesDistinct(edges: seq<Merge.Edge>)
    ensures forall i, j | 0 <= i < j < |Vertices(edges)| :: Vertices(edges)[i] != Vertices(edges)[j]
    decreases |edges|
  {
    if |edges| > 0 {
      VerticesDistinct(edges[..|edges| - 1]);
    }
  }

  /**
   * `generate_graph_te()`: the manager's graph (`None` without a merged
   * topology) with its vertices numbered.
   */
  function GraphOf(merged: Option<Topology>, nodeOf: (Topology, string) -> Option<string>)
    : (r: Result<Option<seq<string>>, PyError>)
    ensures merged.None? ==> r == Ok(None)
    ensures r.Ok? && r.value.Some? ==>
      var edges := Merge.GraphEdges(merged.value, nodeOf, |merged.value.links|);
      edges.Ok? && r.value.value == Vertices(edges.value)
  {
    if merged.None? then Ok(None)
    else match Merge.GraphEdges(merged.value, nodeOf, |merged.value.links|)
      case Ok(edges) => Ok(Some(Vertices(edges)))
      case Err(e) => Err(e)
  }

  // ---------------------------------------------------------------------
  // Grouping the path into runs, one per domain
  // ---------------------------------------------------------------------

  /** A path link with the nodes at its two ends and the domains of those nodes. */
  datatype Hop = Hop(link: ConnectionPath, srcNode: string, dstNode: string, srcDomain: DomainId, dstDomain: DomainId)

  predicate CrossDomain(h: Hop) {
    h.srcDomain != h.dstDomain
  }

  /**
   * The lookups for one link: the graph (`AttributeError` when there is
   * none), its two vertices (`AssertionError` when one is missing), and the
   * domains of their nodes.
   */
  function ResolveHop(graph: Option<seq<string>>, topologyMap: OMap<string, Topology>, link: ConnectionPath)
    : (r: Result<Hop, PyError>)
    ensures graph.None? ==> r == Err(AttributeError)
    ensures graph.Some? ==>
      (r.Ok? <==> VertexNode(graph.value, link.source).Some? && VertexNode(graph.value, link.destination).Some?)
    ensures r.Err? ==> r.error in {AttributeError, AssertionError}
    ensures r.Ok? ==>
      && r.value.link == link
      && Some(r.value.srcNode) == VertexNode(graph.value, link.source)
      && Some(r.value.dstNode) == VertexNode(graph.value, link.destination)
      && r.value.srcDomain == Merge.DomainOf(topologyMap, r.value.srcNode)
      && r.value.dstDomain == Merge.DomainOf(topologyMap, r.value.dstNode)
  {
    if graph.None? then Err(AttributeError)
    else match (VertexNode(graph.value, link.source), VertexNode(graph.value, link.destination))
      case (Some(src), Some(dst)) =>
        Ok(Hop(link, src, dst, Merge.DomainOf(topologyMap, src), Merge.DomainOf(topologyMap, dst)))
      case _ => Err(AssertionError)
  }

  /** The runs flushed so far, and the links gathered since the last flush (`current_link_set`). */
  datatype Gathering = Gathering(runs: seq<seq<Hop>>, pending: seq<Hop>)

  /**
   * The grouping loop over the first |hops| links of a domain's list of
   * `total` links: a link joins the pending run; the run is flushed when
   * the link crosses domains (and the pending run restarts empty) or when
   * it is the list's last link.
   */
  function Gather(hops: seq<Hop>, total: nat): Gathering
    decreases |hops|
  {
    if |hops| == 0 then Gathering([], [])
    else
      var g := Gather(hops[..|hops| - 1], total);
      var h := hops[|hops| - 1];
      var run := g.pending + [h];
      if CrossDomain(h) then Gathering(g.runs + [run], [])
      else if |hops| == total then Gathering(g.runs + [run], run)
      else Gathering(g.runs, run)
  }

  /** The runs of a whole list. */
  function Runs(hops: seq<Hop>): seq<seq<Hop>> {
    Gather(hops, |hops|).runs
  }

  function Flatten(runs: seq<seq<Hop>>): seq<Hop>
    decreases |runs|
  {
    if |runs| == 0 then [] else Flatten(runs[..|runs| - 1]) + runs[|runs| - 1]
  }

  /** The domain a run is filed under: the source domain of its last link, the one that flushed it. */
  function RunDomain(run: seq<Hop>): DomainId {
    if |run| == 0 then None else run[|run| - 1].srcDomain
  }

  /** `breakdown[current_domain] = current_link_set.copy()` for each run in order. */
  function PutRuns(bd: OMap<DomainId, seq<Hop>>, runs: seq<seq<Hop>>): (r: OMap<DomainId, seq<Hop>>)
    ensures bd.Valid() ==> r.Valid()
    decreases |runs|
  {
    if |runs| == 0 then bd
    else PutRuns(bd, runs[..|runs| - 1]).Put(RunDomain(runs[|runs| - 1]), runs[|runs| - 1])
  }

  /** One more link, gathered. */
  lemma GatherNext(hops: seq<Hop>, h: Hop, total: nat)
    ensures var g := Gather(hops, total);
      var run := g.pending + [h];
      Gather(hops + [h], total)
        == if CrossDomain(h) then Gathering(g.runs + [run], [])
           else if |hops| + 1 == total then Gathering(g.runs + [run], run)
           else Gathering(g.runs, run)
  {
    assert (hops + [h])[..|hops|] == hops;
  }

  lemma PutRunsSnoc(bd: OMap<DomainId, seq<Hop>>, runs: seq<seq<Hop>>, run: seq<Hop>)
    ensures PutRuns(bd, runs + [run]) == PutRuns(bd, runs).Put(RunDomain(run), run)
  {
    assert (runs + [run])[..|runs|] == runs;
  }

  lemma FlattenSnoc(runs: seq<seq<Hop>>, run: seq<Hop>)
    ensures Flatten(runs + [run]) == Flatten(runs) + run
  {
    assert (runs + [run])[..|runs|] == runs;
  }

  /** Before the last link, the runs and the pending links are the links so far, in order. */
  lemma {:induction false} GatherCovers(hops: seq<Hop>, total: nat)
    requires |hops| < total
    ensures Flatten(Gather(hops, total).runs) + Gather(hops, total).pending == hops
    decreases |hops|
  {
    if |hops| > 0 {
      var prefix := hops[..|hops| - 1];
      GatherCovers(prefix, total);
      CoversStep(Gather(prefix, total), hops, Gather(hops, total));
    }
  }

  /** Gathering one more link that is not the list's last keeps the links in order. */
  lemma CoversStep(g: Gathering, hops: seq<Hop>, g': Gathering)
    requires |hops| > 0 && Flatten(g.runs) + g.pending == hops[..|hops| - 1]
    requires var h := hops[|hops| - 1];
      g' == if CrossDomain(h) then Gathering(g.runs + [g.pending + [h]], []) else Gathering(g.runs, g.pending + [h])
    ensures Flatten(g'.runs) + g'.pending == hops
  {
    var prefix, h := hops[..|hops| - 1], hops[|hops| - 1];
    assert prefix + [h] == hops;
    if CrossDomain(h) {
      FlushKeepsOrder(g.runs, g.pending, h, prefix);
    } else {
      ExtendKeepsOrder(g.runs, g.pending, h, prefix);
    }
  }

  /** Flushing the pending run with one more link keeps the links in order. */
  lemma FlushKeepsOrder(runs: seq<seq<Hop>>, pending: seq<Hop>, h: Hop, prefix: seq<Hop>)
    requires Flatten(runs) + pending == prefix
    ensures Flatten(runs + [pending + [h]]) == prefix + [h]
  {
    FlattenSnoc(runs, pending + [h]);
    ExtendKeepsOrder(runs, pending, h, prefix);
  }

  /** Adding one more link to the pending run keeps the links in order. */
  lemma ExtendKeepsOrder(runs: seq<seq<Hop>>, pending: seq<Hop>, h: Hop, prefix: seq<Hop>)
    requires Flatten(runs) + pending == prefix
    ensures Flatten(runs) + (pending + [h]) == prefix + [h]
  {
    assert Flatten(runs) + (pending + [h]) == (Flatten(runs) + pending) + [h];
  }

  /** The runs of a list are its links, in order: every link lands in exactly one run. */
  lemma RunsCover(hops: seq<Hop>)
    requires |hops| > 0
    ensures Flatten(Runs(hops)) == hops
  {
    var prefix := hops[..|hops| - 1];
    GatherCovers(prefix, |hops|);
    FlushLast(Gather(prefix, |hops|), hops);
  }

  /** Flushing the pending run with the list's last link completes the list. */
  lemma FlushLast(g: Gathering, hops: seq<Hop>)
    requires |hops| > 0 && Flatten(g.runs) + g.pending == hops[..|hops| - 1]
    ensures Flatten(g.runs + [g.pending + [hops[|hops| - 1]]]) == hops
  {
    var prefix, h := hops[..|hops| - 1], hops[|hops| - 1];
    assert prefix + [h] == hops;
    FlushKeepsOrder(g.runs, g.pending, h, prefix);
  }

  /** Links that stay in one domain. */
  predicate InDomain(hops: seq<Hop>) {
    forall j | 0 <= j < |hops| :: !CrossDomain(hops[j])
  }

  /** Runs that are non-empty and cross domains at most at their last link. */
  predicate WellShaped(runs: seq<seq<Hop>>) {
    forall k | 0 <= k < |runs| :: |runs[k]| > 0 && InDomain(runs[k][..|runs[k]| - 1])
  }

  /** Runs that each end with a link crossing domains. */
  predicate Closed(runs: seq<seq<Hop>>) {
    forall k | 0 <= k < |runs| :: |runs[k]| > 0 && CrossDomain(runs[k][|runs[k]| - 1])
  }

  lemma InDomainSnoc(hops: seq<Hop>, h: Hop)
    requires InDomain(hops) && !CrossDomain(h)
    ensures InDomain(hops + [h])
  {
  }

  /**
   * The shape of the runs: none is empty; inside a run only the last link
   * may cross domains; before the list's last link, every run ends with a
   * link that crosses, and the pending links cross no domain.
   */
  lemma {:induction false} GatherShape(hops: seq<Hop>, total: nat)
    requires |hops| <= total
    ensures WellShaped(Gather(hops, total).runs)
    ensures |hops| < total ==> Closed(Gather(hops, total).runs) && InDomain(Gather(hops, total).pending)
    decreases |hops|
  {
    if |hops| > 0 {
      var n := |hops| - 1;
      GatherShape(hops[..n], total);
      var g := Gather(hops[..n], total);
      var h := hops[n];
      var run := g.pending + [h];
      assert run[..|run| - 1] == g.pending;
      if !CrossDomain(h) {
        InDomainSnoc(g.pending, h);
      }
    }
  }

  /** Every run is non-empty and crosses domains at most at its end; every run but the final one does cross there. */
  lemma RunsShape(hops: seq<Hop>)
    ensures WellShaped(Runs(hops))
    ensures |hops| > 0 ==> Closed(Runs(hops)[..|Runs(hops)| - 1])
  {
    GatherShape(hops, |hops|);
    if |hops| > 0 {
      var n := |hops| - 1;
      GatherShape(hops[..n], |hops|);
      var g := Gather(hops[..n], |hops|);
      assert Runs(hops)[..|Runs(hops)| - 1] == g.runs;
    }
  }

  /**
   * After the puts, a domain is filed with the last run that ends in it;
   * domains no run ends in keep what they had.
   */
  function LastRunIn(runs: seq<seq<Hop>>, d: DomainId): (r: Option<seq<Hop>>)
    ensures r.Some? ==> r.value in runs && RunDomain(r.value) == d
    ensures r.None? ==> forall run | run in runs :: RunDomain(run) != d
    decreases |runs|
  {
    if |runs| == 0 then None
    else if RunDomain(runs[|runs| - 1]) == d then Some(runs[|runs| - 1])
    else
      assert forall run | run in runs :: run in runs[..|runs| - 1] || run == runs[|runs| - 1];
      LastRunIn(runs[..|runs| - 1], d)
  }

  lemma {:induction false} PutRunsLookup(bd: OMap<DomainId, seq<Hop>>, runs: seq<seq<Hop>>, d: DomainId)
    ensures d in PutRuns(bd, runs).values <==> d in bd.values || LastRunIn(runs, d).Some?
    ensures d in PutRuns(bd, runs).values ==>
      PutRuns(bd, runs).values[d] == if LastRunIn(runs, d).Some? then LastRunIn(runs, d).value else bd.values[d]
    decreases |runs|
  {
    if |runs| > 0 {
      PutRunsLookup(bd, runs[..|runs| - 1], d);
    }
  }

  /** The resolved links of each domain's list, in order; the first lookup that raises wins. */
  function ResolvePath(graph: Option<seq<string>>, topologyMap: OMap<string, Topology>, links: seq<ConnectionPath>)
    : (r: Result<seq<Hop>, PyError>)
    ensures r.Ok? ==> |r.value| == |links|
    decreases |links|
  {
    if |links| == 0 then Ok([])
    else match ResolvePath(graph, topologyMap, links[..|links| - 1])
      case Err(e) => Err(e)
      case Ok(hops) =>
        match ResolveHop(graph, topologyMap, links[|links| - 1])
        case Err(e) => Err(e)
        case Ok(h) => Ok(hops + [h])
  }

  /** A resolved path has one hop per link, each the resolution of its link; it fails exactly when some link does. */
  lemma {:induction false} ResolvePathHops(graph: Option<seq<string>>, topologyMap: OMap<string, Topology>, links: seq<ConnectionPath>)
    ensures var r := ResolvePath(graph, topologyMap, links);
      && (r.Ok? <==> forall j | 0 <= j < |links| :: ResolveHop(graph, topologyMap, links[j]).Ok?)
      && (r.Ok? ==> forall j | 0 <= j < |links| :: ResolveHop(graph, topologyMap, links[j]) == Ok(r.value[j]))
    decreases |links|
  {
    if |links| > 0 {
      var n := |links| - 1;
      ResolvePathHops(graph, topologyMap, links[..n]);
      assert forall j | 0 <= j < n :: links[..n][j] == links[j];
    }
  }

  /**
   * The first loop of `generate_connection_breakdown` over the solution's
   * domains and their link lists: the runs of every list, filed by domain.
   */
  function GroupPaths(graph: Option<seq<string>>, topologyMap: OMap<string, Topology>, paths: seq<seq<ConnectionPath>>)
    : (r: Result<OMap<DomainId, seq<Hop>>, PyError>)
    ensures r.Ok? ==> r.value.Valid()
    decreases |paths|
  {
    if |paths| == 0 then Ok(Empty())
    else match GroupPaths(graph, topologyMap, paths[..|paths| - 1])
      case Err(e) => Err(e)
      case Ok(bd) =>
        match ResolvePath(graph, topologyMap, paths[|paths| - 1])
        case Err(e) => Err(e)
        case Ok(hops) => Ok(PutRuns(bd, Runs(hops)))
  }

  /** Every domain in the grouping is filed with a non-empty run. */
  lemma {:induction false} GroupPathsNonEmpty(graph: Option<seq<string>>, topologyMap: OMap<string, Topology>,
                                              paths: seq<seq<ConnectionPath>>, d: DomainId)
    requires GroupPaths(graph, topologyMap, paths).Ok?
    requires d in GroupPaths(graph, topologyMap, paths).value.values
    ensures |GroupPaths(graph, topologyMap, paths).value.values[d]| > 0
    decreases |paths|
  {
    var n := |paths| - 1;
    var bd := GroupPaths(graph, topologyMap, paths[..n]).value;
    var hops := ResolvePath(graph, topologyMap, paths[n]).value;
    PutRunsLookup(bd, Runs(hops), d);
    match LastRunIn(Runs(hops), d)
    case Some(run) =>
      RunsShape(hops);
    case None =>
      GroupPathsNonEmpty(graph, topologyMap, paths[..n], d);
  }

  /** The domains' runs, in the order the breakdown lists its domains. */
  function RunsOf(bd: OMap<DomainId, seq<Hop>>): (r: seq<seq<Hop>>)
    requires bd.Valid()
    ensures |r| == |bd.keys| && forall k | 0 <= k < |bd.keys| :: r[k] == bd.values[bd.keys[k]]
  {
    seq(|bd.keys|, k requires 0 <= k < |bd.keys| => bd.values[bd.keys[k]])
  }

  /** Every domain of the grouping has at least one link. */
  predicate NonEmptyRuns(bd: OMap<DomainId, seq<Hop>>)
    requires bd.Valid()
  {
    forall k | 0 <= k < |RunsOf(bd)| :: |RunsOf(bd)[k]| > 0
  }

  lemma GroupPathsRunsNonEmpty(graph: Option<seq<string>>, topologyMap: OMap<string, Topology>, paths: seq<seq<ConnectionPath>>)
    requires GroupPaths(graph, topologyMap, paths).Ok?
    ensures NonEmptyRuns(GroupPaths(graph, topologyMap, paths).value)
  {
    var bd := GroupPaths(graph, topologyMap, paths).value;
    forall k | 0 <= k < |RunsOf(bd)| ensures |RunsOf(bd)[k]| > 0 {
      GroupPathsNonEmpty(graph, topologyMap, paths, bd.keys[k]);
    }
  }

  /** One more link, resolved. */
  lemma ResolvePathNext(graph: Option<seq<string>>, topologyMap: OMap<string, Topology>, links: seq<ConnectionPath>,
                        count: nat, hops: seq<Hop>)
    requires count < |links| && ResolvePath(graph, topologyMap, links[..count]) == Ok(hops)
    ensures ResolvePath(graph, topologyMap, links[..count + 1])
         == match ResolveHop(graph, topologyMap, links[count])
            case Ok(h) => Ok(hops + [h])
            case Err(e) => Err(e)
  {
    assert links[..count + 1][..count] == links[..count];
  }

  /** Once a lookup raised, the rest of the list is not looked at. */
  lemma {:induction false} ResolvePathSticks(graph: Option<seq<string>>, topologyMap: OMap<string, Topology>,
                                             links: seq<ConnectionPath>, j: nat)
    requires j <= |links| && ResolvePath(graph, topologyMap, links[..j]).Err?
    ensures ResolvePath(graph, topologyMap, links) == ResolvePath(graph, topologyMap, links[..j])
    decreases |links| - j
  {
    if j < |links| {
      assert links[..j + 1][..j] == links[..j];
      ResolvePathSticks(graph, topologyMap, links, j + 1);
    } else {
      assert links[..j] == links;
    }
  }

  /** One more domain's list of links, grouped after the others. */
  lemma GroupPathsNext(graph: Option<seq<string>>, topologyMap: OMap<string, Topology>,
                       paths: seq<seq<ConnectionPath>>, i: nat)
    requires i < |paths|
    ensures GroupPaths(graph, topologyMap, paths[..i + 1]) ==
      match GroupPaths(graph, topologyMap, paths[..i])
      case Err(e) => Err(e)
      case Ok(bd) =>
        match ResolvePath(graph, topologyMap, paths[i])
        case Err(e) => Err(e)
        case Ok(hops) => Ok(PutRuns(bd, Runs(hops)))
  {
    assert paths[..i + 1][..i] == paths[..i];
  }

  /** Once a lookup raised, the remaining domains are not looked at. */
  lemma {:induction false} GroupPathsSticks(graph: Option<seq<string>>, topologyMap: OMap<string, Topology>,
                                            paths: seq<seq<ConnectionPath>>, j: nat)
    requires j <= |paths| && GroupPaths(graph, topologyMap, paths[..j]).Err?
    ensures GroupPaths(graph, topologyMap, paths) == GroupPaths(graph, topologyMap, paths[..j])
    decreases |paths| - j
  {
    if j < |paths| {
      assert paths[..j + 1][..j] == paths[..j];
      GroupPathsSticks(graph, topologyMap, paths, j + 1);
    } else {
      assert paths[..j] == paths;
    }
  }

  // ---------------------------------------------------------------------
  // Chaining ingress and egress ports across the domains
  // ---------------------------------------------------------------------

  /** A port of the user's request: its id and the VLAN it asks for (its `vlan_range`), if any. */
  datatype UserPort = UserPort(id: string, vlan: Option<int>)

  /** A connection request (after `ConnectionHandler` has parsed it). */
  datatype ConnectionRequest = ConnectionRequest(
    id: string,
    ingress: UserPort,
    egress: UserPort,
    bandwidth: Option<int>,   // `bandwidth_required`
    latency: Option<int>)     // `latency_required`

  /** What `generate_connection_breakdown` is handed: a traffic-matrix list, or a connection request. */
  datatype RequestFormat = TrafficMatrixFormat | Connection(request: ConnectionRequest)

  /** A domain's segment: its ingress and egress port ids, `None` when a lookup found no port. */
  datatype Segment = Segment(ingress: Option<string>, egress: Option<string>)

  /**
   * What the chaining reads from `TopologyManager`: the merged topology,
   * its `get_port_by_link(node1, node2)` (the two ends of a link between
   * two nodes, when there is one, each as a node id and a port id), and
   * the ports the port -> link map knows.
   */
  datatype Ports = Ports(merged: Topology, portsByLink: (Topology, string, string) -> Option<(string, string, string, string)>, linked: set<string>)

  /** `_get_ports_by_link(link)`: the ports at the two ends of a link, `(None, None)` when there is none. */
  function LinkPorts(ports: Ports, h: Hop): (Option<string>, Option<string>) {
    match ports.portsByLink(ports.merged, h.srcNode, h.dstNode)
    case Some((_, p1, _, p2)) => (Some(p1), Some(p2))
    case None => (None, None)
  }

  /**
   * The two asserts of `_get_ports_by_link(link)`: a link found between
   * the link's two nodes names them as its ends, in that order.
   */
  predicate LinkAsserted(ports: Ports, h: Hop) {
    match ports.portsByLink(ports.merged, h.srcNode, h.dstNode)
    case Some((n1, _, n2, _)) => n1 == h.srcNode && n2 == h.dstNode
    case None => true
  }

  /**
   * The lookups of the chaining step for the domain at position `k` of
   * `n` pass their asserts: the first domain looks up its last link, and
   * its first one for a traffic matrix; a later final domain looks up its
   * last link unless the request's egress is a user port; a middle domain
   * looks up its last link.
   */
  predicate StepAsserted(k: nat, n: nat, run: seq<Hop>, request: RequestFormat, ports: Ports)
    requires |run| > 0
  {
    var last := run[|run| - 1];
    if k == 0 then (request.TrafficMatrixFormat? ==> LinkAsserted(ports, run[0])) && LinkAsserted(ports, last)
    else if k == n - 1 then (request.Connection? && IsUserPort(ports, request.request.egress)) || LinkAsserted(ports, last)
    else LinkAsserted(ports, last)
  }

  /** Every lookup of the first `m` chaining steps passes its asserts. */
  predicate ChainAsserted(runs: seq<seq<Hop>>, m: nat, request: RequestFormat, ports: Ports)
    requires m <= |runs| && forall k | 0 <= k < |runs| :: |runs[k]| > 0
  {
    forall k | 0 <= k < m :: StepAsserted(k, |runs|, runs[k], request, ports)
  }

  /**
   * The asserts cannot fail when `get_port_by_link(node1, node2)` returns
   * the link with `node1` and `node2` as its ends, in that order.
   */
  lemma {:induction false} OrderedLookupAsserted(runs: seq<seq<Hop>>, request: RequestFormat, ports: Ports)
    requires forall k | 0 <= k < |runs| :: |runs[k]| > 0
    requires forall a, b :: var found := ports.portsByLink(ports.merged, a, b);
               found.Some? ==> found.value.0 == a && found.value.2 == b
    ensures ChainAsserted(runs, |runs|, request, ports)
  {
    forall h: Hop ensures LinkAsserted(ports, h) {
      var found := ports.portsByLink(ports.merged, h.srcNode, h.dstNode);
      assert found.Some? ==> found.value.0 == h.srcNode && found.value.2 == h.dstNode;
    }
  }

  /** `get_port_by_id(id)["id"]`: the id itself when a node has that port, else `None`. */
  function PortById(ports: Ports, id: string): Option<string> {
    if HasPortId(ports.merged.nodes, id) then Some(id) else None
  }

  /** The chaining loop's variables: the segments so far, `next_ingress_port`, and the user ports it recorded. */
  datatype Chain = Chain(segments: seq<Segment>, next: Option<string>,
                         ingressUser: Option<UserPort>, egressUser: Option<UserPort>)

  /** A request port that the port -> link map does not know: a user port. */
  predicate IsUserPort(ports: Ports, p: UserPort) {
    p.id !in ports.linked
  }

  /** One iteration of the chaining loop, for the domain at position `k` of `n`, whose run is `run`. */
  function ChainStep(c: Chain, k: nat, n: nat, run: seq<Hop>, request: RequestFormat, sameDomain: bool, ports: Ports): Chain
    requires |run| > 0
  {
    var last := run[|run| - 1];
    if k == 0 then
      var (ingress, ingressUser) :=
        if request.Connection? && IsUserPort(ports, request.request.ingress) then
          (PortById(ports, request.request.ingress.id), Some(request.request.ingress))
        else if request.TrafficMatrixFormat? then (LinkPorts(ports, run[0]).0, c.ingressUser)
        else (PortById(ports, request.request.ingress.id), c.ingressUser);
      var (egress, next, egressUser) :=
        if request.Connection? && sameDomain && IsUserPort(ports, request.request.egress) then
          (PortById(ports, request.request.egress.id), LinkPorts(ports, last).1, Some(request.request.egress))
        else
          (if sameDomain then LinkPorts(ports, last).1 else LinkPorts(ports, last).0, LinkPorts(ports, last).1, c.egressUser);
      Chain(c.segments + [Segment(ingress, egress)], next, ingressUser, egressUser)
    else if k == n - 1 then
      if request.Connection? && IsUserPort(ports, request.request.egress) then
        Chain(c.segments + [Segment(c.next, PortById(ports, request.request.egress.id))], c.next, c.ingressUser, Some(request.request.egress))
      else Chain(c.segments + [Segment(c.next, LinkPorts(ports, last).1)], c.next, c.ingressUser, c.egressUser)
    else
      Chain(c.segments + [Segment(c.next, LinkPorts(ports, last).0)], LinkPorts(ports, last).1, c.ingressUser, c.egressUser)
  }

  /** The chaining loop over the first `m` runs of the `|runs|` the grouping filed. */
  function ChainUpTo(runs: seq<seq<Hop>>, m: nat, request: RequestFormat, sameDomain: bool, ports: Ports): (c: Chain)
    requires m <= |runs| && forall k | 0 <= k < |runs| :: |runs[k]| > 0
    ensures |c.segments| == m
    decreases m
  {
    if m == 0 then Chain([], None, None, None)
    else ChainStep(ChainUpTo(runs, m - 1, request, sameDomain, ports), m - 1, |runs|, runs[m - 1], request, sameDomain, ports)
  }

  /**
   * Where each segment's ports come from, stated per position: the first
   * segment starts at the request's ingress port (or, for a traffic
   * matrix, at the first link's first port); every later segment starts at
   * the second port of the previous run's last link; a middle segment ends
   * at the first port of its own last link; the final one ends at the
   * request's egress port when that is a user port, else at the second
   * port of its last link.
   */
  function SegmentAt(runs: seq<seq<Hop>>, k: nat, request: RequestFormat, sameDomain: bool, ports: Ports): Segment
    requires k < |runs| && forall i | 0 <= i < |runs| :: |runs[i]| > 0
  {
    var last := runs[k][|runs[k]| - 1];
    if k == 0 then
      ChainStep(Chain([], None, None, None), 0, |runs|, runs[0], request, sameDomain, ports).segments[0]
    else
      var prevLast := runs[k - 1][|runs[k - 1]| - 1];
      var ingress := LinkPorts(ports, prevLast).1;
      if k < |runs| - 1 then Segment(ingress, LinkPorts(ports, last).0)
      else if request.Connection? && IsUserPort(ports, request.request.egress) then
        Segment(ingress, PortById(ports, request.request.egress.id))
      else Segment(ingress, LinkPorts(ports, last).1)
  }

  /** After a first or middle run, the carried ingress is the second port of that run's last link. */
  lemma ChainCarries(runs: seq<seq<Hop>>, m: nat, request: RequestFormat, sameDomain: bool, ports: Ports)
    requires 0 < m <= |runs| && forall k | 0 <= k < |runs| :: |runs[k]| > 0
    requires m - 1 == 0 || m - 1 < |runs| - 1
    ensures ChainUpTo(runs, m, request, sameDomain, ports).next == LinkPorts(ports, runs[m - 1][|runs[m - 1]| - 1]).1
  {
  }

  /** The chaining loop gives each domain the segment `SegmentAt` describes. */
  lemma {:induction false} ChainSegments(runs: seq<seq<Hop>>, m: nat, request: RequestFormat, sameDomain: bool, ports: Ports, k: nat)
    requires m <= |runs| && forall i | 0 <= i < |runs| :: |runs[i]| > 0
    requires k < m
    ensures ChainUpTo(runs, m, request, sameDomain, ports).segments[k] == SegmentAt(runs, k, request, sameDomain, ports)
    decreases m
  {
    if k < m - 1 {
      ChainSegments(runs, m - 1, request, sameDomain, ports, k);
    } else if k > 0 {
      ChainCarries(runs, k, request, sameDomain, ports);
    }
  }

  /**
   * The user ports the chaining records: the ingress one when the first
   * domain's ingress is a user port; the egress one when the final
   * domain's egress is, or when a single domain serves both ends in the
   * same domain.
   */
  lemma {:induction false} ChainUserPorts(runs: seq<seq<Hop>>, m: nat, request: RequestFormat, sameDomain: bool, ports: Ports)
    requires 0 < m <= |runs| && forall k | 0 <= k < |runs| :: |runs[k]| > 0
    ensures var c := ChainUpTo(runs, m, request, sameDomain, ports);
      && (c.ingressUser.Some? <==> request.Connection? && IsUserPort(ports, request.request.ingress))
      && (c.ingressUser.Some? ==> c.ingressUser.value == request.request.ingress)
      && (c.egressUser.Some? ==> request.Connection? && c.egressUser.value == request.request.egress
                                 && IsUserPort(ports, request.request.egress))
      && (m == |runs| && |runs| > 1 ==>
            (c.egressUser.Some? <==> request.Connection? && IsUserPort(ports, request.request.egress)))
    decreases m
  {
    if m > 1 {
      ChainUserPorts(runs, m - 1, request, sameDomain, ports);
    }
  }

  // ---------------------------------------------------------------------
  // The VLAN-tagged record of each segment
  // ---------------------------------------------------------------------

  /** `VlanTaggedPort(VlanTag(value=tag, tag_type=1), port_id=id)`. */
  datatype TaggedPort = TaggedPort(portId: string, tag: int)

  /**
   * `VlanTaggedBreakdown(name, dynamic_backup_path=True, uni_a, uni_z)` for
   * a domain; the name is made from the domain and the two tags.
   */
  datatype Tagged = Tagged(domain: string, uniA: TaggedPort, uniZ: TaggedPort) {
    function Name(): string {
      BreakdownName(domain, uniA.tag, uniZ.tag)
    }
  }

  /** `domain.split(":")[-1].split(".")[0]`: the first label of the domain's last field. */
  function DomainLabel(domain: string): string {
    var fields := Strings.Split(domain, ':');
    Strings.Split(fields[|fields| - 1], '.')[0]
  }

  /** `DomainLabel(domain).upper() + "_vlan_{in}_{eg}"`: the name of a domain's record. */
  function BreakdownName(domain: string, ingressTag: int, egressTag: int): string {
    Strings.Upper(DomainLabel(domain)) + "_vlan_" + Numerals.IntToString(ingressTag) + "_" + Numerals.IntToString(egressTag)
  }

  /** The last ':'-field of a topology id is what follows the prefix. */
  lemma LastUrnField(tail: string)
    requires ':' !in tail
    ensures var fields := Strings.Split(Interdomain.TopologyPrefix + tail, ':'); fields[|fields| - 1] == tail
  {
    Interdomain.SplitPrefixed(Interdomain.TopologyPrefix, tail);
    Strings.SplitWithoutSep(tail, ':');
  }

  /** The first '.'-field of `d.rest` is `d`. */
  lemma FirstDotField(d: string, rest: string)
    requires '.' !in d
    ensures Strings.Split(d + "." + rest, '.')[0] == d
  {
    assert d + "." + rest == d + ['.'] + rest;
    Strings.SplitAfterField(d, '.', rest);
  }

  /** For `urn:sdx:topology:<d>.<rest>`, the record is named after `d`. */
  lemma DomainLabelOfTopologyId(d: string, rest: string)
    requires ':' !in d && '.' !in d && ':' !in rest
    ensures DomainLabel(Interdomain.TopologyPrefix + d + "." + rest) == d
  {
    var tail := d + "." + rest;
    assert Interdomain.TopologyPrefix + d + "." + rest == Interdomain.TopologyPrefix + tail;
    assert ':' !in tail;
    LastUrnField(tail);
    FirstDotField(d, rest);
  }

  /** How one domain's reservation ended. */
  datatype SegmentOutcome =
    | Reserved(record: Tagged)  // both ends have a tag
    | MissingPort               // a segment port is `None`: the breakdown is `None`
    | Raised(error: PyError)    // `_unreserve_vlan` (an `assert False` stub), or `None.split`

  /** The tag a user port asks for at a segment port: its VLAN when it is that port. */
  function UserTag(user: Option<UserPort>, portId: string): Option<int> {
    if user.Some? && user.value.id == portId then user.value.vlan else None
  }

  /**
   * One iteration of `_reserve_vlan_breakdown`: reserve the ingress tag,
   * then the egress tag, in the same table; a port the port -> link map
   * does not know borrows the other end's tag (ingress first); a missing
   * tag ends in `_unreserve_vlan`, which raises `AssertionError` and leaves
   * what was reserved in place.
   */
  function ReserveSegment(T: VlanTables.TagsTable, domain: DomainId, s: Segment, req: VlanTables.RequestId,
                          ingressUser: Option<UserPort>, egressUser: Option<UserPort>, linked: set<string>)
    : (r: (SegmentOutcome, VlanTables.TagsTable))
    ensures s.ingress.None? || s.egress.None? ==> r == (MissingPort, T)
    ensures r.0.Reserved? ==>
      && domain.Some? && s.ingress.Some? && s.egress.Some?
      && r.0.record.domain == domain.value
      && r.0.record.uniA.portId == s.ingress.value && r.0.record.uniZ.portId == s.egress.value
  {
    if s.ingress.None? || s.egress.None? then (MissingPort, T)
    else
      var ingressId, egressId := s.ingress.value, s.egress.value;
      var r1 := VlanTables.Reserve(T, domain, Some(ingressId), req, UserTag(ingressUser, ingressId));
      var r2 := VlanTables.Reserve(r1.table, domain, Some(egressId), req, UserTag(egressUser, egressId));
      (SettleTags(domain, ingressId, egressId, r1.tag, r2.tag, linked), r2.table)
  }

  /**
   * The end of one iteration of `_reserve_vlan_breakdown`, once both
   * reservations are made: the borrowing of a user port's tag, and the
   * record.
   */
  function SettleTags(domain: DomainId, ingressId: string, egressId: string,
                      ingressGranted: Option<int>, egressGranted: Option<int>, linked: set<string>): SegmentOutcome
  {
    var ingressTag := if ingressId !in linked && ingressGranted.None? then egressGranted else ingressGranted;
    var egressTag := if egressId !in linked && egressGranted.None? then ingressTag else egressGranted;
    if ingressTag.None? || egressTag.None? then Raised(AssertionError)
    else if domain.None? then Raised(AttributeError)
    else
      Reserved(Tagged(domain.value, TaggedPort(ingressId, ingressTag.value), TaggedPort(egressId, egressTag.value)))
  }

  /** The request holds the tag at that port of the domain. */
  predicate Holds(T: VlanTables.TagsTable, domain: string, portId: string, tag: int, req: VlanTables.RequestId) {
    domain in T && portId in T[domain] && VlanTables.HeldBy(T[domain][portId], Some(tag), req)
  }

  /**
   * The request holds the tag of each end of a record, except that a user
   * port may carry the other end's tag instead; at least one end's tag is
   * held.
   */
  lemma ReserveSegmentTags(T: VlanTables.TagsTable, domain: DomainId, s: Segment, req: VlanTables.RequestId,
                           ingressUser: Option<UserPort>, egressUser: Option<UserPort>, linked: set<string>)
    requires ReserveSegment(T, domain, s, req, ingressUser, egressUser, linked).0.Reserved?
    ensures var (o, T') := ReserveSegment(T, domain, s, req, ingressUser, egressUser, linked);
      var d, a, z := o.record.domain, o.record.uniA, o.record.uniZ;
      && (Holds(T', d, a.portId, a.tag, req) || (a.portId !in linked && a.tag == z.tag))
      && (Holds(T', d, z.portId, z.tag, req) || (z.portId !in linked && z.tag == a.tag))
      && (Holds(T', d, a.portId, a.tag, req) || Holds(T', d, z.portId, z.tag, req))
  {
    var ingressId, egressId := s.ingress.value, s.egress.value;
    var t1, t2 := UserTag(ingressUser, ingressId), UserTag(egressUser, egressId);
    var r1 := VlanTables.Reserve(T, domain, Some(ingressId), req, t1);
    var r2 := VlanTables.Reserve(r1.table, domain, Some(egressId), req, t2);
    if r1.tag.Some? {
      ReserveHolds(T, domain, ingressId, req, t1);
      VlanTables.ReserveKeepsHolders(r1.table, domain, Some(egressId), req, t2);
      HoldsKept(r1.table, r2.table, domain.value, ingressId, r1.tag.value, req);
    }
    if r2.tag.Some? {
      ReserveHolds(r1.table, domain, egressId, req, t2);
    }
    SettleTagsHeld(domain, ingressId, egressId, r1.tag, r2.tag, linked, r2.table, req);
  }

  /** A granted tag is held by the request in the table the reservation leaves. */
  lemma ReserveHolds(T: VlanTables.TagsTable, domain: DomainId, portId: string, req: VlanTables.RequestId, tag: Option<int>)
    requires VlanTables.Reserve(T, domain, Some(portId), req, tag).tag.Some?
    ensures domain.Some?
    ensures var r := VlanTables.Reserve(T, domain, Some(portId), req, tag); Holds(r.table, domain.value, portId, r.tag.value, req)
  {
    VlanTables.ReserveSpec(T, domain, Some(portId), req, tag);
  }

  lemma HoldsKept(T1: VlanTables.TagsTable, T2: VlanTables.TagsTable, domain: string, portId: string, tag: int,
                  req: VlanTables.RequestId)
    requires VlanTables.KeepsHolders(T1, T2) && Holds(T1, domain, portId, tag, req)
    ensures Holds(T2, domain, portId, tag, req)
  {
  }

  /** Borrowing a tag for a user port keeps the record's ends held or borrowed. */
  lemma SettleTagsHeld(domain: DomainId, ingressId: string, egressId: string, g1: Option<int>, g2: Option<int>,
                       linked: set<string>, T': VlanTables.TagsTable, req: VlanTables.RequestId)
    requires SettleTags(domain, ingressId, egressId, g1, g2, linked).Reserved?
    requires g1.Some? ==> domain.Some? && Holds(T', domain.value, ingressId, g1.value, req)
    requires g2.Some? ==> domain.Some? && Holds(T', domain.value, egressId, g2.value, req)
    ensures var o := SettleTags(domain, ingressId, egressId, g1, g2, linked);
      var d, a, z := o.record.domain, o.record.uniA, o.record.uniZ;
      && (Holds(T', d, a.portId, a.tag, req) || (a.portId !in linked && a.tag == z.tag))
      && (Holds(T', d, z.portId, z.tag, req) || (z.portId !in linked && z.tag == a.tag))
      && (Holds(T', d, a.portId, a.tag, req) || Holds(T', d, z.portId, z.tag, req))
  {
  }

  /** How `_reserve_vlan_breakdown` stands after some domains: still going, returned `None`, or raised. */
  datatype Progress = Going(records: seq<Tagged>) | Stopped | Failed(error: PyError)

  /** `_reserve_vlan_breakdown` over the first `n` segments, and the table it leaves. */
  function ReservePrefix(T: VlanTables.TagsTable, domains: seq<DomainId>, segments: seq<Segment>, n: nat,
                         req: VlanTables.RequestId, ingressUser: Option<UserPort>, egressUser: Option<UserPort>,
                         linked: set<string>)
    : (r: (Progress, VlanTables.TagsTable))
    requires n <= |domains| == |segments|
    ensures r.0.Going? ==> |r.0.records| == n
    decreases n
  {
    if n == 0 then (Going([]), T)
    else
      var (p, T') := ReservePrefix(T, domains, segments, n - 1, req, ingressUser, egressUser, linked);
      if !p.Going? then (p, T')
      else
        var (o, T'') := ReserveSegment(T', domains[n - 1], segments[n - 1], req, ingressUser, egressUser, linked);
        match o
        case Reserved(record) => (Going(p.records + [record]), T'')
        case MissingPort => (Stopped, T'')
        case Raised(e) => (Failed(e), T'')
  }

  /** One domain's reservation keeps every holder and keeps the table valid. */
  lemma ReserveSegmentKeepsHolders(T: VlanTables.TagsTable, domain: DomainId, s: Segment, req: VlanTables.RequestId,
                                   ingressUser: Option<UserPort>, egressUser: Option<UserPort>, linked: set<string>)
    ensures var T' := ReserveSegment(T, domain, s, req, ingressUser, egressUser, linked).1;
      VlanTables.KeepsHolders(T, T') && (VlanTables.TableValid(T) ==> VlanTables.TableValid(T'))
  {
    if s.ingress.Some? && s.egress.Some? {
      var t1, t2 := UserTag(ingressUser, s.ingress.value), UserTag(egressUser, s.egress.value);
      var r1 := VlanTables.Reserve(T, domain, s.ingress, req, t1);
      VlanTables.ReserveKeepsHolders(T, domain, s.ingress, req, t1);
      VlanTables.ReserveKeepsHolders(r1.table, domain, s.egress, req, t2);
      VlanTables.KeepsHoldersTrans(T, r1.table, VlanTables.Reserve(r1.table, domain, s.egress, req, t2).table);
      if VlanTables.TableValid(T) {
        VlanTables.ReserveKeepsValid(T, domain, s.ingress, req, t1);
        VlanTables.ReserveKeepsValid(r1.table, domain, s.egress, req, t2);
      }
    }
  }

  /**
   * The breakdown never takes a tag from another holder and never drops a
   * port or a tag, whether it succeeds, returns `None` or raises; and it
   * keeps the table valid.
   */
  lemma {:induction false} ReservePrefixKeepsHolders(T: VlanTables.TagsTable, domains: seq<DomainId>, segments: seq<Segment>,
                                                     n: nat, req: VlanTables.RequestId, ingressUser: Option<UserPort>,
                                                     egressUser: Option<UserPort>, linked: set<string>)
    requires n <= |domains| == |segments|
    ensures var T' := ReservePrefix(T, domains, segments, n, req, ingressUser, egressUser, linked).1;
      VlanTables.KeepsHolders(T, T') && (VlanTables.TableValid(T) ==> VlanTables.TableValid(T'))
    decreases n
  {
    if n > 0 {
      ReservePrefixKeepsHolders(T, domains, segments, n - 1, req, ingressUser, egressUser, linked);
      var T1 := ReservePrefix(T, domains, segments, n - 1, req, ingressUser, egressUser, linked).1;
      var T3 := ReserveSegment(T1, domains[n - 1], segments[n - 1], req, ingressUser, egressUser, linked).1;
      ReserveSegmentKeepsHolders(T1, domains[n - 1], segments[n - 1], req, ingressUser, egressUser, linked);
      ReservePrefixTable(T, domains, segments, n, req, ingressUser, egressUser, linked);
      KeepsHoldersEither(T, T1, ReservePrefix(T, domains, segments, n, req, ingressUser, egressUser, linked).1, T3);
    }
  }

  /** After one more domain the table is the one before it, or the one its reservation left. */
  lemma ReservePrefixTable(T: VlanTables.TagsTable, domains: seq<DomainId>, segments: seq<Segment>,
                           n: nat, req: VlanTables.RequestId, ingressUser: Option<UserPort>,
                           egressUser: Option<UserPort>, linked: set<string>)
    requires 0 < n <= |domains| == |segments|
    ensures var T1 := ReservePrefix(T, domains, segments, n - 1, req, ingressUser, egressUser, linked).1;
      var T2 := ReservePrefix(T, domains, segments, n, req, ingressUser, egressUser, linked).1;
      T2 == T1 || T2 == ReserveSegment(T1, domains[n - 1], segments[n - 1], req, ingressUser, egressUser, linked).1
  {
  }

  lemma KeepsHoldersEither(T: VlanTables.TagsTable, T1: VlanTables.TagsTable, T2: VlanTables.TagsTable, T3: VlanTables.TagsTable)
    requires VlanTables.KeepsHolders(T, T1) && (VlanTables.TableValid(T) ==> VlanTables.TableValid(T1))
    requires VlanTables.KeepsHolders(T1, T3) && (VlanTables.TableValid(T1) ==> VlanTables.TableValid(T3))
    requires T2 == T1 || T2 == T3
    ensures VlanTables.KeepsHolders(T, T2) && (VlanTables.TableValid(T) ==> VlanTables.TableValid(T2))
  {
    VlanTables.KeepsHoldersTrans(T, T1, T3);
  }

  /** Once the breakdown returned `None` or raised, the remaining domains are not looked at. */
  lemma {:induction false} ReservePrefixSticks(T: VlanTables.TagsTable, domains: seq<DomainId>, segments: seq<Segment>,
                                               i: nat, n: nat, req: VlanTables.RequestId, ingressUser: Option<UserPort>,
                                               egressUser: Option<UserPort>, linked: set<string>)
    requires i <= n <= |domains| == |segments|
    requires !ReservePrefix(T, domains, segments, i, req, ingressUser, egressUser, linked).0.Going?
    ensures ReservePrefix(T, domains, segments, n, req, ingressUser, egressUser, linked)
         == ReservePrefix(T, domains, segments, i, req, ingressUser, egressUser, linked)
    decreases n - i
  {
    if i < n {
      ReservePrefixSticks(T, domains, segments, i, n - 1, req, ingressUser, egressUser, linked);
    }
  }

  /**
   * Each record of a breakdown that went through belongs to its domain and
   * its segment's ports, and its tags are still held by the request at the
   * end (a user port may carry the other end's tag instead).
   */
  lemma {:induction false} ReservePrefixRecords(T: VlanTables.TagsTable, domains: seq<DomainId>, segments: seq<Segment>,
                                                n: nat, req: VlanTables.RequestId, ingressUser: Option<UserPort>,
                                                egressUser: Option<UserPort>, linked: set<string>, k: nat)
    requires n <= |domains| == |segments| && k < n
    requires ReservePrefix(T, domains, segments, n, req, ingressUser, egressUser, linked).0.Going?
    ensures var r := ReservePrefix(T, domains, segments, n, req, ingressUser, egressUser, linked);
      var rec := r.0.records[k];
      && domains[k] == Some(rec.domain)
      && segments[k] == Segment(Some(rec.uniA.portId), Some(rec.uniZ.portId))
      && RecordHeld(r.1, rec, req, linked)
    decreases n
  {
    var prev := ReservePrefix(T, domains, segments, n - 1, req, ingressUser, egressUser, linked);
    if k == n - 1 {
      ReservePrefixLast(T, domains, segments, n, req, ingressUser, egressUser, linked);
    } else {
      ReservePrefixEarlier(T, domains, segments, n, req, ingressUser, egressUser, linked, k);
      ReservePrefixRecords(T, domains, segments, n - 1, req, ingressUser, egressUser, linked, k);
      ReservePrefixKeepsRecord(T, domains, segments, n, req, ingressUser, egressUser, linked, prev.0.records[k]);
    }
  }

  /** The record of the last domain names it and its segment's ports, and its ends are held. */
  lemma ReservePrefixLast(T: VlanTables.TagsTable, domains: seq<DomainId>, segments: seq<Segment>,
                          n: nat, req: VlanTables.RequestId, ingressUser: Option<UserPort>,
                          egressUser: Option<UserPort>, linked: set<string>)
    requires 0 < n <= |domains| == |segments|
    requires ReservePrefix(T, domains, segments, n, req, ingressUser, egressUser, linked).0.Going?
    ensures var r := ReservePrefix(T, domains, segments, n, req, ingressUser, egressUser, linked);
      var rec := r.0.records[n - 1];
      && domains[n - 1] == Some(rec.domain)
      && segments[n - 1] == Segment(Some(rec.uniA.portId), Some(rec.uniZ.portId))
      && RecordHeld(r.1, rec, req, linked)
  {
    ReservePrefixGoing(T, domains, segments, n, req, ingressUser, egressUser, linked);
    var prev := ReservePrefix(T, domains, segments, n - 1, req, ingressUser, egressUser, linked);
    var step := ReserveSegment(prev.1, domains[n - 1], segments[n - 1], req, ingressUser, egressUser, linked);
    RecordAt(prev.0.records, step.0.record, n - 1);
    ReserveSegmentRecord(prev.1, domains[n - 1], segments[n - 1], req, ingressUser, egressUser, linked);
  }

  /** The records of the earlier domains are the ones they had before the last domain. */
  lemma ReservePrefixEarlier(T: VlanTables.TagsTable, domains: seq<DomainId>, segments: seq<Segment>,
                             n: nat, req: VlanTables.RequestId, ingressUser: Option<UserPort>,
                             egressUser: Option<UserPort>, linked: set<string>, k: nat)
    requires k + 1 < n <= |domains| == |segments|
    requires ReservePrefix(T, domains, segments, n, req, ingressUser, egressUser, linked).0.Going?
    ensures var prev := ReservePrefix(T, domains, segments, n - 1, req, ingressUser, egressUser, linked);
      && prev.0.Going?
      && ReservePrefix(T, domains, segments, n, req, ingressUser, egressUser, linked).0.records[k] == prev.0.records[k]
  {
    ReservePrefixGoing(T, domains, segments, n, req, ingressUser, egressUser, linked);
    var prev := ReservePrefix(T, domains, segments, n - 1, req, ingressUser, egressUser, linked);
    var step := ReserveSegment(prev.1, domains[n - 1], segments[n - 1], req, ingressUser, egressUser, linked);
    RecordAt(prev.0.records, step.0.record, k);
  }

  /** A record held before the last domain is still held after it. */
  lemma ReservePrefixKeepsRecord(T: VlanTables.TagsTable, domains: seq<DomainId>, segments: seq<Segment>,
                                 n: nat, req: VlanTables.RequestId, ingressUser: Option<UserPort>,
                                 egressUser: Option<UserPort>, linked: set<string>, rec: Tagged)
    requires 0 < n <= |domains| == |segments|
    requires ReservePrefix(T, domains, segments, n, req, ingressUser, egressUser, linked).0.Going?
    requires RecordHeld(ReservePrefix(T, domains, segments, n - 1, req, ingressUser, egressUser, linked).1, rec, req, linked)
    ensures RecordHeld(ReservePrefix(T, domains, segments, n, req, ingressUser, egressUser, linked).1, rec, req, linked)
  {
    ReservePrefixGoing(T, domains, segments, n, req, ingressUser, egressUser, linked);
    var prev := ReservePrefix(T, domains, segments, n - 1, req, ingressUser, egressUser, linked);
    ReserveSegmentKeepsHolders(prev.1, domains[n - 1], segments[n - 1], req, ingressUser, egressUser, linked);
    RecordKept(prev.1, ReserveSegment(prev.1, domains[n - 1], segments[n - 1], req, ingressUser, egressUser, linked).1,
               rec, req, linked);
  }

  lemma RecordAt(records: seq<Tagged>, record: Tagged, k: nat)
    requires k <= |records|
    ensures (records + [record])[k] == if k == |records| then record else records[k]
  {
  }

  /** A domain that reserved its record: the record names the domain and the segment's ports, and its ends are held. */
  lemma ReserveSegmentRecord(T: VlanTables.TagsTable, domain: DomainId, s: Segment, req: VlanTables.RequestId,
                             ingressUser: Option<UserPort>, egressUser: Option<UserPort>, linked: set<string>)
    requires ReserveSegment(T, domain, s, req, ingressUser, egressUser, linked).0.Reserved?
    ensures var (o, T') := ReserveSegment(T, domain, s, req, ingressUser, egressUser, linked);
      && domain == Some(o.record.domain)
      && s == Segment(Some(o.record.uniA.portId), Some(o.record.uniZ.portId))
      && RecordHeld(T', o.record, req, linked)
  {
    ReserveSegmentTags(T, domain, s, req, ingressUser, egressUser, linked);
  }

  /** Each end of the record is held by the request, or is a user port that borrowed the other end's tag. */
  predicate RecordHeld(T: VlanTables.TagsTable, rec: Tagged, req: VlanTables.RequestId, linked: set<string>) {
    && (Holds(T, rec.domain, rec.uniA.portId, rec.uniA.tag, req) || (rec.uniA.portId !in linked && rec.uniA.tag == rec.uniZ.tag))
    && (Holds(T, rec.domain, rec.uniZ.portId, rec.uniZ.tag, req) || (rec.uniZ.portId !in linked && rec.uniZ.tag == rec.uniA.tag))
  }

  lemma RecordKept(T1: VlanTables.TagsTable, T2: VlanTables.TagsTable, rec: Tagged, req: VlanTables.RequestId, linked: set<string>)
    requires VlanTables.KeepsHolders(T1, T2) && RecordHeld(T1, rec, req, linked)
    ensures RecordHeld(T2, rec, req, linked)
  {
    if Holds(T1, rec.domain, rec.uniA.portId, rec.uniA.tag, req) {
      HoldsKept(T1, T2, rec.domain, rec.uniA.portId, rec.uniA.tag, req);
    }
    if Holds(T1, rec.domain, rec.uniZ.portId, rec.uniZ.tag, req) {
      HoldsKept(T1, T2, rec.domain, rec.uniZ.portId, rec.uniZ.tag, req);
    }
  }

  /** A breakdown still going after `n` domains was going after `n - 1`, and the `n`-th domain reserved its record. */
  lemma ReservePrefixGoing(T: VlanTables.TagsTable, domains: seq<DomainId>, segments: seq<Segment>,
                           n: nat, req: VlanTables.RequestId, ingressUser: Option<UserPort>,
                           egressUser: Option<UserPort>, linked: set<string>)
    requires 0 < n <= |domains| == |segments|
    requires ReservePrefix(T, domains, segments, n, req, ingressUser, egressUser, linked).0.Going?
    ensures var prev := ReservePrefix(T, domains, segments, n - 1, req, ingressUser, egressUser, linked);
      var step := ReserveSegment(prev.1, domains[n - 1], segments[n - 1], req, ingressUser, egressUser, linked);
      && prev.0.Going? && step.0.Reserved?
      && ReservePrefix(T, domains, segments, n, req, ingressUser, egressUser, linked)
         == (Going(prev.0.records + [step.0.record]), step.1)
  {
  }

  // ---------------------------------------------------------------------
  // generate_connection_breakdown as a whole
  // ---------------------------------------------------------------------

  /** `ConnectionSolution`: per domain of the request, the links of the path; and the request id. */
  datatype ConnectionSolution = ConnectionSolution(connectionMap: Option<seq<seq<ConnectionPath>>>, requestId: string)

  /** `same_domain_port_flag`: false for a traffic matrix; raises without a merged topology. */
  function SameDomainFlag(topologyMap: OMap<string, Topology>, merged: Option<Topology>,
                          nodeOf: (Topology, string) -> Option<string>, request: RequestFormat): (r: Result<bool, PyError>)
    ensures request.TrafficMatrixFormat? ==> r == Ok(false)
    ensures request.Connection? && merged.None? ==> r == Err(AttributeError)
  {
    match request
    case TrafficMatrixFormat => Ok(false)
    case Connection(req) =>
      if merged.None? then Err(AttributeError)
      else Ok(Merge.SameDomain(topologyMap, merged.value, nodeOf, req.ingress.id, req.egress.id))
  }

  /**
   * `generate_connection_breakdown(solution, request)`: `None` without a
   * solution; otherwise the grouping, the same-domain flag, the chaining
   * (whose first lookup raises without a merged topology) and the
   * reservation, with the table each leaves. The result lists one record
   * per domain, or is `None` when a segment port is missing.
   */
  function ConnectionBreakdown(T: VlanTables.TagsTable, graph: Option<seq<string>>, topologyMap: OMap<string, Topology>,
                               merged: Option<Topology>, linked: set<string>,
                               portsByLink: (Topology, string, string) -> Option<(string, string, string, string)>,
                               nodeOf: (Topology, string) -> Option<string>,
                               solution: Option<ConnectionSolution>, request: RequestFormat)
    : (r: (Result<Option<seq<Tagged>>, PyError>, VlanTables.TagsTable))
    ensures solution.None? || solution.value.connectionMap.None? ==> r == (Ok(None), T)
  {
    if solution.None? || solution.value.connectionMap.None? then (Ok(None), T)
    else
      var paths := solution.value.connectionMap.value;
      match GroupPaths(graph, topologyMap, paths)
      case Err(e) => (Err(e), T)
      case Ok(bd) =>
        match SameDomainFlag(topologyMap, merged, nodeOf, request)
        case Err(e) => (Err(e), T)
        case Ok(sameDomain) =>
          if |bd.keys| == 0 then (Ok(Some([])), T)
          else if merged.None? then (Err(AttributeError), T)
          else
            GroupPathsRunsNonEmpty(graph, topologyMap, paths);
            ChainAndReserve(T, bd, merged.value, linked, portsByLink, solution.value.requestId, request, sameDomain)
  }

  /**
   * The chaining of the domains' segments, then the reservation of their
   * tags. A failed assert in a lookup raises `AssertionError` before any
   * tag is reserved.
   */
  function ChainAndReserve(T: VlanTables.TagsTable, bd: OMap<DomainId, seq<Hop>>, merged: Topology, linked: set<string>,
                           portsByLink: (Topology, string, string) -> Option<(string, string, string, string)>,
                           requestId: VlanTables.RequestId, request: RequestFormat, sameDomain: bool)
    : (r: (Result<Option<seq<Tagged>>, PyError>, VlanTables.TagsTable))
    requires bd.Valid() && NonEmptyRuns(bd)
  {
    var runs := RunsOf(bd);
    var ports := Ports(merged, portsByLink, linked);
    if !ChainAsserted(runs, |runs|, request, ports) then (Err(AssertionError), T)
    else
      var chain := ChainUpTo(runs, |runs|, request, sameDomain, ports);
      var (p, T') := ReservePrefix(T, bd.keys, chain.segments, |runs|, requestId, chain.ingressUser, chain.egressUser, linked);
      match p
      case Going(records) => (Ok(Some(records)), T')
      case Stopped => (Ok(None), T')
      case Failed(e) => (Err(e), T')
  }

  /** The chaining and reservation take no tag from another holder and keep the table valid. */
  lemma ChainAndReserveKeepsHolders(T: VlanTables.TagsTable, bd: OMap<DomainId, seq<Hop>>, merged: Topology, linked: set<string>,
                                    portsByLink: (Topology, string, string) -> Option<(string, string, string, string)>,
                                    requestId: VlanTables.RequestId, request: RequestFormat, sameDomain: bool)
    requires bd.Valid() && NonEmptyRuns(bd)
    ensures var T' := ChainAndReserve(T, bd, merged, linked, portsByLink, requestId, request, sameDomain).1;
      VlanTables.KeepsHolders(T, T') && (VlanTables.TableValid(T) ==> VlanTables.TableValid(T'))
  {
    var runs := RunsOf(bd);
    var chain := ChainUpTo(runs, |runs|, request, sameDomain, Ports(merged, portsByLink, linked));
    ReservePrefixKeepsHolders(T, bd.keys, chain.segments, |runs|, requestId, chain.ingressUser, chain.egressUser, linked);
  }

  /**
   * Whatever the outcome, the breakdown takes no tag from another holder,
   * drops no port and no tag, and keeps the table valid.
   */
  lemma ConnectionBreakdownKeepsHolders(T: VlanTables.TagsTable, graph: Option<seq<string>>, topologyMap: OMap<string, Topology>,
                                        merged: Option<Topology>, linked: set<string>,
                                        portsByLink: (Topology, string, string) -> Option<(string, string, string, string)>,
                                        nodeOf: (Topology, string) -> Option<string>,
                                        solution: Option<ConnectionSolution>, request: RequestFormat)
    ensures var T' := ConnectionBreakdown(T, graph, topologyMap, merged, linked, portsByLink, nodeOf, solution, request).1;
      VlanTables.KeepsHolders(T, T') && (VlanTables.TableValid(T) ==> VlanTables.TableValid(T'))
  {
    var r := ConnectionBreakdown(T, graph, topologyMap, merged, linked, portsByLink, nodeOf, solution, request);
    if solution.Some? && solution.value.connectionMap.Some? {
      var paths := solution.value.connectionMap.value;
      var g := GroupPaths(graph, topologyMap, paths);
      var sd := SameDomainFlag(topologyMap, merged, nodeOf, request);
      if g.Ok? && sd.Ok? && |g.value.keys| > 0 && merged.Some? {
        GroupPathsRunsNonEmpty(graph, topologyMap, paths);
        assert r == ChainAndReserve(T, g.value, merged.value, linked, portsByLink, solution.value.requestId, request, sd.value);
        ChainAndReserveKeepsHolders(T, g.value, merged.value, linked, portsByLink, solution.value.requestId, request, sd.value);
      } else {
        assert r.1 == T;
      }
    } else {
      assert r.1 == T;
    }
  }

  /**
   * When the chaining and reservation go through, there is one record per
   * domain of the grouping, in order, each on the ports the chaining gave
   * that domain.
   */
  lemma ChainAndReserveRecords(T: VlanTables.TagsTable, bd: OMap<DomainId, seq<Hop>>, merged: Topology, linked: set<string>,
                               portsByLink: (Topology, string, string) -> Option<(string, string, string, string)>,
                               requestId: VlanTables.RequestId, request: RequestFormat, sameDomain: bool, k: nat)
    requires bd.Valid() && NonEmptyRuns(bd)
    requires var r := ChainAndReserve(T, bd, merged, linked, portsByLink, requestId, request, sameDomain).0;
      r.Ok? && r.value.Some? && k < |r.value.value|
    ensures var records := ChainAndReserve(T, bd, merged, linked, portsByLink, requestId, request, sameDomain).0.value.value;
      && |records| == |bd.keys|
      && bd.keys[k] == Some(records[k].domain)
      && SegmentAt(RunsOf(bd), k, request, sameDomain, Ports(merged, portsByLink, linked))
         == Segment(Some(records[k].uniA.portId), Some(records[k].uniZ.portId))
  {
    var runs := RunsOf(bd);
    var ports := Ports(merged, portsByLink, linked);
    var chain := ChainUpTo(runs, |runs|, request, sameDomain, ports);
    var pr := ReservePrefix(T, bd.keys, chain.segments, |runs|, requestId, chain.ingressUser, chain.egressUser, linked);
    assert ChainAndReserve(T, bd, merged, linked, portsByLink, requestId, request, sameDomain).0 == Ok(Some(pr.0.records));
    ReservePrefixRecords(T, bd.keys, chain.segments, |runs|, requestId, chain.ingressUser, chain.egressUser, linked, k);
    ChainSegments(runs, |runs|, request, sameDomain, ports, k);
  }

  /**
   * A breakdown that went through has one record per domain of the
   * grouping, in order, each on the ports the chaining gave that domain.
   */
  lemma ConnectionBreakdownRecords(T: VlanTables.TagsTable, graph: Option<seq<string>>, topologyMap: OMap<string, Topology>,
                                   merged: Option<Topology>, linked: set<string>,
                                   portsByLink: (Topology, string, string) -> Option<(string, string, string, string)>,
                                   nodeOf: (Topology, string) -> Option<string>,
                                   solution: ConnectionSolution, request: RequestFormat, k: nat)
    requires solution.connectionMap.Some?
    requires GroupPaths(graph, topologyMap, solution.connectionMap.value).Ok?
    requires var r := ConnectionBreakdown(T, graph, topologyMap, merged, linked, portsByLink, nodeOf, Some(solution), request).0;
      r.Ok? && r.value.Some? && k < |r.value.value|
    ensures var bd := GroupPaths(graph, topologyMap, solution.connectionMap.value).value;
      var records := ConnectionBreakdown(T, graph, topologyMap, merged, linked, portsByLink, nodeOf, Some(solution), request).0.value.value;
      && |records| == |bd.keys|
      && bd.keys[k] == Some(records[k].domain)
      && merged.Some?
      && NonEmptyRuns(bd)
      && SegmentAt(RunsOf(bd), k, request, SameDomainFlag(topologyMap, merged, nodeOf, request).value, Ports(merged.value, portsByLink, linked))
         == Segment(Some(records[k].uniA.portId), Some(records[k].uniZ.portId))
  {
    var paths := solution.connectionMap.value;
    var bd := GroupPaths(graph, topologyMap, paths).value;
    GroupPathsRunsNonEmpty(graph, topologyMap, paths);
    var r := ConnectionBreakdown(T, graph, topologyMap, merged, linked, portsByLink, nodeOf, Some(solution), request);
    var sd := SameDomainFlag(topologyMap, merged, nodeOf, request).value;
    assert r == ChainAndReserve(T, bd, merged.value, linked, portsByLink, solution.requestId, request, sd);
    ChainAndReserveRecords(T, bd, merged.value, linked, portsByLink, solution.requestId, request, sd, k);
  }

  // ---------------------------------------------------------------------
  // generate_traffic_matrix
  // ---------------------------------------------------------------------

  /** `request.latency_required or float("inf")`. */
  datatype Latency = Finite(value: int) | Unbounded

  /** `ConnectionRequest(source, destination, required_bandwidth, required_latency)`. */
  datatype TrafficRequest = TrafficRequest(source: nat, destination: nat, bandwidth: int, latency: Latency)

  /** `TrafficMatrix(connection_requests=[...], request_id=...)`. */
  datatype TrafficMatrix = TrafficMatrix(requests: seq<TrafficRequest>, requestId: string)

  /** The first vertex standing for the node. */
  function FirstVertex(vertices: seq<string>, nodeId: string): (r: Option<nat>)
    ensures r.Some? ==> r.value < |vertices| && vertices[r.value] == nodeId
    ensures r.Some? ==> forall v | 0 <= v < r.value :: vertices[v] != nodeId
    ensures r.None? ==> nodeId !in vertices
    decreases |vertices|
  {
    if |vertices| == 0 then None
    else if vertices[0] == nodeId then Some(0)
    else match FirstVertex(vertices[1..], nodeId)
      case Some(v) => Some(v + 1)
      case None => None
  }

  /**
   * `generate_traffic_matrix(request)`: `None` when either request port is
   * on no node of the merged topology, or that node is no vertex of the
   * graph; otherwise one request between the two vertices. A missing
   * bandwidth counts as 0, and a missing or zero latency as unbounded.
   * Without a merged topology or a graph the attribute read raises.
   */
  function TrafficMatrixOf(merged: Option<Topology>, graph: Option<seq<string>>,
                           nodeOf: (Topology, string) -> Option<string>, req: ConnectionRequest)
    : (r: Result<Option<TrafficMatrix>, PyError>)
    ensures merged.None? ==> r == Err(AttributeError)
    ensures r.Ok? && r.value.Some? ==>
      && merged.Some? && graph.Some?
      && var ingress, egress := nodeOf(merged.value, req.ingress.id), nodeOf(merged.value, req.egress.id);
      && ingress.Some? && egress.Some?
      && r.value.value.requestId == req.id
      && |r.value.value.requests| == 1
      && var t := r.value.value.requests[0];
      && t.source < |graph.value| && graph.value[t.source] == ingress.value
      && t.destination < |graph.value| && graph.value[t.destination] == egress.value
      && t.bandwidth == req.bandwidth.GetOr(0)
      && (t.latency == Unbounded <==> req.latency in {None, Some(0)})
    ensures merged.Some? ==>
      var ingress, egress := nodeOf(merged.value, req.ingress.id), nodeOf(merged.value, req.egress.id);
      && (ingress.None? || egress.None? ==> r == Ok(None))
      && (ingress.Some? && egress.Some? && graph.None? ==> r == Err(AttributeError))
      && (ingress.Some? && egress.Some? && graph.Some? ==>
            (r == Ok(None) <==> ingress.value !in graph.value || egress.value !in graph.value))
  {
    if merged.None? then Err(AttributeError)
    else
      var ingress := nodeOf(merged.value, req.ingress.id);
      var egress := nodeOf(merged.value, req.egress.id);
      if ingress.None? || egress.None? then Ok(None)
      else if graph.None? then Err(AttributeError)
      else
        match (FirstVertex(graph.value, ingress.value), FirstVertex(graph.value, egress.value))
        case (Some(source), Some(destination)) =>
          var latency := if req.latency.None? || req.latency.value == 0 then Unbounded else Finite(req.latency.value);
          Ok(Some(TrafficMatrix([TrafficRequest(source, destination, req.bandwidth.GetOr(0), latency)], req.id)))
        case _ => Ok(None)
  }
}
